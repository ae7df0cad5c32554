/** The server's side of one connection (server.go, application.go) as a state machine over incoming frames. */
module Server {
  import opened Bytes
  import opened Messages
  import opened Body
  import Uri

  datatype Submission = Submission(method_: string, headers: seq<Header>, body: seq<byte>)

  /** A call of the provider: Handler.Open or ApplicationHandler.Exchange, with the ID it serves. */
  datatype Call = Open(id: uint32, path: string, query: string)
                | Exchange(id: uint32, path: string, query: string, request: Submission)

  /** What a provider returns; body is None for a nil Body. */
  datatype Resource = Resource(body: Option<Content>, mediaType: string, size: int)
  datatype Provision = Refused(cause: Cause) | Provided(status: int, headers: seq<Header>, resource: Resource)

  /** The server's settings and everything it meets: the provider and the limiter answer as they please, per call
      and per request ID. isApp tells whether the provider is an ApplicationHandler; late(id) that the transfer
      context ended before the upload of id was verified, lapse(id) that it ends before a chunk of the built-in answer. */
  datatype Config = Config(
    authority: string, maxRequests: nat, maxBytes: int, isApp: bool, rules: Rules, oversize: Meta -> bool,
    handler: Call -> Provision, allow: uint32 -> bool, late: uint32 -> bool, lapse: uint32 -> Option<nat>)

  datatype Phase =
    | AwaitHello
    | Idle(last: uint32, count: nat)
    | AwaitSubmit(last: uint32, count: nat, path: string, query: string)
    | TakeUpload(last: uint32, count: nat, path: string, query: string,
                 method_: string, headers: seq<Header>, size: nat, got: seq<byte>)
    | Stopped

  /** What one incoming frame sets off. */
  datatype Turn = Turn(frames: seq<Frame>, calls: seq<Call>, next: Phase)

  function Fail(cfg: Config, id: uint32, cause: Cause): Turn {
    Turn([ErrorFrame(cfg.rules.reportable, id, cause)], [], Stopped)
  }

  function Failure(code: string, message: string): Cause { Remote(RemoteError(code, message)) }

  predicate OfferOk(versions: seq<int>) {
    && 1 <= |versions| <= 16
    && (forall i :: 0 <= i < |versions| ==> 1 <= versions[i] <= 65535)
    && (forall i, j :: 0 <= i < j < |versions| ==> versions[i] != versions[j])
  }

  const WELCOME := Frame(Welcome, 0, Chosen(VERSION, MAX_CHUNK), [])

  function OnHello(cfg: Config, f: Frame): Turn {
    if f.kind != Hello then Fail(cfg, 0, Protocol)
    else if !f.meta.Versions? || !OfferOk(f.meta.versions) then Fail(cfg, 0, Protocol)
    else if VERSION !in f.meta.versions then
      Fail(cfg, 0, Failure("UNSUPPORTED_VERSION", "no common application version"))
    else Turn([WELCOME], [], Idle(0, 0))
  }

  /** Why a REQUEST in an idle session is refused, if it is. */
  ghost function Refusal(cfg: Config, count: nat, f: Frame): Option<Cause> {
    if !f.meta.Target? then Some(Protocol)
    else if !Uri.IsAuthority(f.meta.authority) then Some(Protocol)
    else if f.meta.authority != cfg.authority then
      Some(Failure("UNKNOWN_AUTHORITY", "this server does not serve that authority"))
    else if f.meta.operation != "FETCH" && f.meta.operation != "EXCHANGE" then
      Some(Failure("UNSUPPORTED_OPERATION", "this operation is not supported"))
    else if !Uri.IsResource(f.meta.path, f.meta.query) then Some(Protocol)
    else if count >= cfg.maxRequests then
      Some(Failure("SESSION_LIMIT", "session request limit reached; open a new connection"))
    else if !cfg.allow(f.id) then Some(Failure("RATE_LIMITED", "peer request rate limit reached"))
    else None
  }

  /** The frames of an answer, and why it ends in an ERROR if it does. */
  datatype Plan = Plan(frames: seq<Frame>, failure: Option<Cause>)

  /** transfer: the plan for a resource opened for FETCH. */
  function TransferPlan(cfg: Config, id: uint32, p: Provision): Plan {
    if p.Refused? then Plan([], Some(p.cause))
    else if p.resource.body == None then Plan([], Some(Internal))
    else if p.resource.size < 0 || p.resource.size > MAX_RESOURCE || !ValidMediaType(p.resource.mediaType) then
      Plan([], Some(Internal))
    else if p.resource.size > cfg.maxBytes then
      Plan([], Some(Failure("TOO_LARGE", "resource exceeds the server limit")))
    else
      Plan([Frame(Response, id, Described(p.resource.mediaType, p.resource.size), [])]
             + SenderFrames(cfg.rules.sha, id, p.resource.body.value, p.resource.size),
           if Exact(p.resource.body.value, p.resource.size) then None
           else Some(Fault(p.resource.body.value, p.resource.size)))
  }

  /** What goes out for a HEAD request is empty, whatever the provider returned. */
  function Payload(method_: string, resource: Resource): Content
    requires resource.body.Some?
  {
    if method_ == "HEAD" then Content([], true, None) else resource.body.value
  }

  function PayloadSize(method_: string, resource: Resource): int {
    if method_ == "HEAD" then 0 else resource.size
  }

  /** The second half of exchange: the plan for an application response. */
  function ReplyPlan(cfg: Config, id: uint32, method_: string, p: Provision): Plan {
    if p.Refused? then Plan([], Some(p.cause))
    else if p.resource.body == None then Plan([], Some(Internal))
    else if !HeadersOk(p.headers) then Plan([], Some(Protocol))
    else if p.status < 200 || p.status > 599 || !ValidMediaType(p.resource.mediaType)
         || p.resource.size < 0 || p.resource.size > Min(cfg.maxBytes, MAX_APP_RESPONSE) then Plan([], Some(Internal))
    else
      var content, size := Payload(method_, p.resource), PayloadSize(method_, p.resource);
      var meta := Reply(p.status, p.headers, p.resource.mediaType, size);
      if cfg.oversize(meta) then Plan([], Some(Protocol))
      else Plan([Frame(Response, id, meta, [])] + SenderFrames(cfg.rules.sha, id, content, size),
                if Exact(content, size) then None else Some(Fault(content, size)))
  }

  /** A plan carried out: idle again after END, stopped after ERROR. */
  function Carry(cfg: Config, id: uint32, count: nat, calls: seq<Call>, plan: Plan): Turn {
    if plan.failure == None then Turn(plan.frames, calls, Idle(id, count))
    else Turn(plan.frames + [ErrorFrame(cfg.rules.reportable, id, plan.failure.value)], calls, Stopped)
  }

  ghost function OnRequest(cfg: Config, last: uint32, count: nat, f: Frame): Turn {
    if f.kind == Close then
      Turn(if f.meta != Empty then [ErrorFrame(cfg.rules.reportable, 0, Protocol)] else [], [], Stopped)
    else if f.kind != Kind.Request || f.id <= last then Fail(cfg, f.id, Protocol)
    else
      var refusal := Refusal(cfg, count, f);
      if refusal.Some? then Fail(cfg, f.id, refusal.value)
      else if f.meta.operation == "EXCHANGE" then
        Turn([Frame(Continue, f.id, Ready(PROFILE, MAX_APP_REQUEST), [])], [],
             AwaitSubmit(f.id, count + 1, f.meta.path, f.meta.query))
      else
        var call := Open(f.id, f.meta.path, f.meta.query);
        Carry(cfg, f.id, count + 1, [call], TransferPlan(cfg, f.id, cfg.handler(call)))
  }

  /** Why the second REQUEST of an exchange is refused, if it is. */
  function SubmitRefusal(cfg: Config, id: uint32, f: Frame): Option<Cause> {
    var refusal := Expect(cfg.rules.reportable, f, Kind.Request, id);
    if refusal.Some? then refusal
    else if !f.meta.Submit? then Some(Protocol)
    else if !ValidMethod(f.meta.method_) || f.meta.size < 0 || f.meta.size > MAX_APP_REQUEST then Some(Protocol)
    else if Bodiless(f.meta.method_) && f.meta.size != 0 then Some(Protocol)
    else if !HeadersOk(f.meta.headers) then Some(Protocol)
    else None
  }

  function OnSubmit(cfg: Config, s: Phase, f: Frame): Turn
    requires s.AwaitSubmit?
  {
    var refusal := SubmitRefusal(cfg, s.last, f);
    if refusal.Some? then Fail(cfg, s.last, refusal.value)
    else Turn([], [], TakeUpload(s.last, s.count, s.path, s.query, f.meta.method_, f.meta.headers, f.meta.size, []))
  }

  function Ascii(s: string): seq<byte> {
    seq(|s|, i requires 0 <= i < |s| => s[i] as int % 256)
  }

  /** What a provider that only serves resources says to any other method. */
  function GetOnly(): string { "This service only supports GET and HEAD." }

  function NotAllowed(lapse: Option<nat>): Provision {
    Provided(405, [Header("allow", "GET, HEAD")],
             Resource(Some(Content(Ascii(GetOnly()), true, lapse)), "text/plain; charset=utf-8", |GetOnly()|))
  }

  /** A verified upload goes to the provider, or to the built-in answer of a provider that only serves resources. */
  function Dispatch(cfg: Config, id: uint32, path: string, query: string, r: Submission): (seq<Call>, Provision) {
    if cfg.isApp then
      var call := Exchange(id, path, query, r);
      ([call], cfg.handler(call))
    else if Bodiless(r.method_) then
      var call := Open(id, path, query);
      ([call], match cfg.handler(call)
               case Refused(cause) => Refused(cause)
               case Provided(_, _, resource) => Provided(200, [], resource))
    else ([], NotAllowed(cfg.lapse(id)))
  }

  function OnVerified(cfg: Config, s: Phase, body: seq<byte>): Turn
    requires s.TakeUpload?
  {
    if cfg.late(s.last) then Fail(cfg, s.last, Internal)
    else
      var (calls, p) := Dispatch(cfg, s.last, s.path, s.query, Submission(s.method_, s.headers, body));
      Carry(cfg, s.last, s.count, calls, ReplyPlan(cfg, s.last, s.method_, p))
  }

  function OnUpload(cfg: Config, s: Phase, f: Frame): Turn
    requires s.TakeUpload?
  {
    match Take(cfg.rules, s.last, s.size, s.got, f)
    case Receiving(more) => Turn([], [], s.(got := more))
    case Complete(body) => OnVerified(cfg, s, body)
    case Rejected(_, cause) => Fail(cfg, s.last, cause)
  }

  ghost function OnFrame(cfg: Config, s: Phase, f: Frame): Turn
    requires !s.Stopped?
  {
    match s
    case AwaitHello => OnHello(cfg, f)
    case Idle(last, count) => OnRequest(cfg, last, count, f)
    case AwaitSubmit(_, _, _, _) => OnSubmit(cfg, s, f)
    case TakeUpload(_, _, _, _, _, _, _, _) => OnUpload(cfg, s, f)
  }

  /** The stream ended: silence between requests, an ERROR inside an exchange. */
  function OnEnd(cfg: Config, s: Phase, ending: Cause): Turn
    requires !s.Stopped?
  {
    if s.AwaitHello? || s.Idle? then Turn([], [], Stopped) else Fail(cfg, s.last, ending)
  }

  /** Everything the server sends and asks of its provider over one connection. */
  datatype Trace = Trace(output: seq<Frame>, calls: seq<Call>)

  ghost function Serve(cfg: Config, ending: Cause, s: Phase, input: seq<Frame>): Trace
    decreases |input|
  {
    if s.Stopped? then Trace([], [])
    else if input == [] then
      var t := OnEnd(cfg, s, ending);
      Trace(t.frames, t.calls)
    else
      var t := OnFrame(cfg, s, input[0]);
      var more := Serve(cfg, ending, t.next, input[1..]);
      Trace(t.frames + more.output, t.calls + more.calls)
  }

  // ----- the provider is called once per request, in order, within the limit -----

  function Pending(s: Phase): nat { if s.AwaitSubmit? || s.TakeUpload? then 1 else 0 }

  /** The floor under the IDs of calls still to come, and how many of them the limit still admits. */
  function Floor(s: Phase): int {
    match s
    case AwaitHello => 0
    case Idle(last, _) => last
    case AwaitSubmit(last, _, _, _) => last - 1
    case TakeUpload(last, _, _, _, _, _, _, _) => last - 1
    case Stopped => 0
  }

  function Used(s: Phase): int {
    if s.AwaitHello? || s.Stopped? then 0 else s.count - Pending(s)
  }

  predicate Within(cfg: Config, s: Phase) {
    match s
    case Idle(_, count) => count <= cfg.maxRequests
    case AwaitSubmit(_, count, _, _) => 1 <= count <= cfg.maxRequests
    case TakeUpload(_, count, _, _, _, _, _, _) => 1 <= count <= cfg.maxRequests
    case _ => true
  }

  /** For every frame sequence an arbitrary client can send: calls carry strictly increasing request IDs, so no ID
      is served twice, and there are never more of them than the session limit. */
  lemma {:induction false} CallsOrdered(cfg: Config, ending: Cause, s: Phase, input: seq<Frame>)
    requires Within(cfg, s)
    ensures var calls := Serve(cfg, ending, s, input).calls;
            && (forall i :: 0 <= i < |calls| ==> Floor(s) < calls[i].id)
            && (forall i, j :: 0 <= i < j < |calls| ==> calls[i].id < calls[j].id)
            && |calls| <= cfg.maxRequests - Used(s)
    decreases |input|
  {
    if !s.Stopped? && input != [] {
      var t := OnFrame(cfg, s, input[0]);
      TurnOrdered(cfg, s, input[0]);
      CallsOrdered(cfg, ending, t.next, input[1..]);
    }
  }

  lemma TurnOrdered(cfg: Config, s: Phase, f: Frame)
    requires !s.Stopped? && Within(cfg, s)
    ensures var t := OnFrame(cfg, s, f);
            && |t.calls| <= 1 && Within(cfg, t.next)
            && (t.calls != [] ==> Floor(s) < t.calls[0].id && Used(s) < cfg.maxRequests)
            && (t.next.Stopped? || (
                  && Floor(s) <= Floor(t.next) && (t.calls != [] ==> t.calls[0].id <= Floor(t.next))
                  && Used(s) + |t.calls| <= Used(t.next)))
  {
  }

  // ----- output is whole conversations, then at most one prefix, then at most one ERROR -----

  /** Where an observer of the server's output stands. */
  datatype Watch =
    | Opening
    | Between(last: uint32)
    | Promised(id: uint32)
    | Sending(id: uint32, size: int, sent: seq<byte>)
    | Over
    | Illegal

  function Announced(meta: Meta): int {
    if meta.Described? || meta.Reply? then meta.size else -1
  }

  /** The conversation grammar: WELCOME, then RESPONSE DATA* END or CONTINUE RESPONSE DATA* END with growing IDs;
      an ERROR may cut in anywhere and nothing follows it. */
  function See(sha: Hash, w: Watch, f: Frame): Watch {
    if f.kind == Error then (if w.Over? || w.Illegal? || !f.meta.Report? then Illegal else Over)
    else match w
      case Opening => if f == WELCOME then Between(0) else Illegal
      case Between(last) =>
        if f.id <= last then Illegal
        else if f.kind == Continue && f.meta == Ready(PROFILE, MAX_APP_REQUEST) then Promised(f.id)
        else if f.kind == Response && f.meta.Described? && f.meta.size >= 0 then Sending(f.id, f.meta.size, [])
        else Illegal
      case Promised(id) =>
        if f.id == id && f.kind == Response && f.meta.Reply? && f.meta.size >= 0 then Sending(id, f.meta.size, [])
        else Illegal
      case Sending(id, size, sent) =>
        if f.id != id || f.meta.Other? then Illegal
        else if f.kind == Data && f.meta == Empty && BodyRule(f) && |sent| + |f.body| <= size then
          Sending(id, size, sent + f.body)
        else if f.kind == End && |sent| == size && f.meta == Ending(size, sha(sent)) then Between(id)
        else Illegal
      case _ => Illegal
  }

  function SeeAll(sha: Hash, w: Watch, fs: seq<Frame>): Watch
    decreases |fs|
  {
    if fs == [] then w else SeeAll(sha, See(sha, w, fs[0]), fs[1..])
  }

  lemma {:induction false} SeeAllAppend(sha: Hash, w: Watch, a: seq<Frame>, b: seq<Frame>)
    ensures SeeAll(sha, w, a + b) == SeeAll(sha, SeeAll(sha, w, a), b)
    decreases |a|
  {
    if a == [] {
      assert a + b == b;
    } else {
      assert (a + b)[1..] == a[1..] + b;
      SeeAllAppend(sha, See(sha, w, a[0]), a[1..], b);
    }
  }

  lemma {:induction false} SeeData(sha: Hash, id: uint32, size: int, sent: seq<byte>, payload: seq<byte>)
    requires |sent| + |payload| <= size
    ensures SeeAll(sha, Sending(id, size, sent), DataFrames(id, payload)) == Sending(id, size, sent + payload)
    decreases |payload|
  {
    if payload == [] {
      assert sent + payload == sent;
    } else {
      var n := Min(MAX_CHUNK, |payload|);
      SeeData(sha, id, size, sent + payload[..n], payload[n..]);
      assert sent + payload[..n] + payload[n..] == sent + payload;
    }
  }

  lemma SeeSender(sha: Hash, id: uint32, c: Content, size: nat)
    ensures var w := SeeAll(sha, Sending(id, size, []), SenderFrames(sha, id, c, size));
            if Exact(c, size) then w == Between(id) else w.Sending? && w.id == id
  {
    SenderParts(sha, id, c, size);
    var k := SentBytes(c, size);
    SeeData(sha, id, size, [], c.data[..k]);
    if Exact(c, size) {
      SeeAllAppend(sha, Sending(id, size, []), DataFrames(id, c.data[..k]), [EndFrame(sha, id, c.data)]);
      assert [] + c.data[..k] == c.data;
    } else {
      assert DataFrames(id, c.data[..k]) + [] == DataFrames(id, c.data[..k]);
    }
  }

  /** What the observer must be thinking in each phase of the server. */
  predicate Agrees(s: Phase, w: Watch) {
    match s
    case AwaitHello => w == Opening
    case Idle(last, _) => w.Between? && w.last <= last
    case AwaitSubmit(last, _, _, _) => w == Promised(last)
    case TakeUpload(last, _, _, _, _, _, _, _) => w == Promised(last)
    case Stopped => true
  }

  lemma SeeAnswer(cfg: Config, id: uint32, count: nat, calls: seq<Call>, plan: Plan, w: Watch, head: Frame,
                  c: Content, size: nat)
    requires plan.frames == [] ==> plan.failure.Some?
    requires plan.frames != [] ==>
               && plan == Plan([head] + SenderFrames(cfg.rules.sha, id, c, size),
                               if Exact(c, size) then None else Some(Fault(c, size)))
               && See(cfg.rules.sha, w, head) == Sending(id, size, [])
    requires !w.Over? && !w.Illegal?
    ensures var t := Carry(cfg, id, count, calls, plan);
            var after := SeeAll(cfg.rules.sha, w, t.frames);
            if plan.failure == None then after == Between(id) else after == Over
  {
    var sha := cfg.rules.sha;
    if plan.frames != [] {
      SeeSender(sha, id, c, size);
      assert plan.frames[1..] == SenderFrames(sha, id, c, size);
    }
    if plan.failure.Some? {
      SeeAllAppend(sha, w, plan.frames, [ErrorFrame(cfg.rules.reportable, id, plan.failure.value)]);
    }
  }

  lemma RequestLegal(cfg: Config, last: uint32, count: nat, f: Frame, w: Watch)
    requires Agrees(Idle(last, count), w)
    ensures var t := OnRequest(cfg, last, count, f);
            var after := SeeAll(cfg.rules.sha, w, t.frames);
            !after.Illegal? && Agrees(t.next, after)
  {
    hide SenderFrames, HeadersOk;
    if f.kind == Kind.Request && f.id > last && Refusal(cfg, count, f).None? && f.meta.operation != "EXCHANGE" {
      var call := Open(f.id, f.meta.path, f.meta.query);
      var p := cfg.handler(call);
      var plan := TransferPlan(cfg, f.id, p);
      if plan.frames == [] {
        SeeAnswer(cfg, f.id, count + 1, [call], plan, w, WELCOME, Content([], true, None), 0);
      } else {
        SeeAnswer(cfg, f.id, count + 1, [call], plan, w, plan.frames[0], p.resource.body.value, p.resource.size);
      }
    }
  }

  lemma TurnLegal(cfg: Config, s: Phase, f: Frame, w: Watch)
    requires !s.Stopped? && Agrees(s, w)
    ensures var t := OnFrame(cfg, s, f);
            var after := SeeAll(cfg.rules.sha, w, t.frames);
            !after.Illegal? && Agrees(t.next, after)
  {
    hide Take, OnRequest, OnVerified, SubmitRefusal;
    match s
    case AwaitHello =>
    case Idle(last, count) => RequestLegal(cfg, last, count, f, w);
    case AwaitSubmit(_, _, _, _) =>
    case TakeUpload(last, count, path, query, method_, headers, size, got) =>
      var t := Take(cfg.rules, last, size, got, f);
      if t.Complete? {
        VerifiedLegal(cfg, s, t.got, w);
      }
  }

  lemma VerifiedLegal(cfg: Config, s: Phase, body: seq<byte>, w: Watch)
    requires s.TakeUpload? && w == Promised(s.last)
    ensures var t := OnVerified(cfg, s, body);
            var after := SeeAll(cfg.rules.sha, w, t.frames);
            !after.Illegal? && Agrees(t.next, after)
  {
    if cfg.late(s.last) {
      return;
    }
    hide SenderFrames, HeadersOk, Payload, PayloadSize;
    var (calls, p) := Dispatch(cfg, s.last, s.path, s.query, Submission(s.method_, s.headers, body));
    var plan := ReplyPlan(cfg, s.last, s.method_, p);
    if plan.frames == [] {
      SeeAnswer(cfg, s.last, s.count, calls, plan, w, WELCOME, Content([], true, None), 0);
    } else {
      SeeAnswer(cfg, s.last, s.count, calls, plan, w, plan.frames[0],
                Payload(s.method_, p.resource), PayloadSize(s.method_, p.resource));
    }
  }

  /** For every frame sequence an arbitrary client can send, what the server puts on the wire obeys the grammar. */
  lemma {:induction false} OutputLegal(cfg: Config, ending: Cause, s: Phase, input: seq<Frame>, w: Watch)
    requires Agrees(s, w) && !w.Illegal?
    ensures !SeeAll(cfg.rules.sha, w, Serve(cfg, ending, s, input).output).Illegal?
    decreases |input|
  {
    if !s.Stopped? && input != [] {
      var t := OnFrame(cfg, s, input[0]);
      var after := SeeAll(cfg.rules.sha, w, t.frames);
      TurnLegal(cfg, s, input[0], w);
      OutputLegal(cfg, ending, t.next, input[1..], after);
      SeeAllAppend(cfg.rules.sha, w, t.frames, Serve(cfg, ending, t.next, input[1..]).output);
    }
  }

  /** A prefix of a legal output is legal, so the grammar holds at every moment of a run. */
  lemma {:induction false} PrefixLegal(sha: Hash, w: Watch, a: seq<Frame>, b: seq<Frame>)
    requires !SeeAll(sha, w, a + b).Illegal?
    ensures !SeeAll(sha, w, a).Illegal?
  {
    SeeAllAppend(sha, w, a, b);
    if SeeAll(sha, w, a).Illegal? {
      IllegalStays(sha, b);
    }
  }

  lemma {:induction false} IllegalStays(sha: Hash, fs: seq<Frame>)
    ensures SeeAll(sha, Illegal, fs).Illegal?
  {
    if fs != [] {
      assert See(sha, Illegal, fs[0]) == Illegal;
      IllegalStays(sha, fs[1..]);
    }
  }

  // ----- every provider call answers a complete request, and an upload is verified first -----

  /** What exchange does once CONTINUE is out: its frames, its provider calls, how it fails, what it leaves unread. */
  datatype Part = Part(frames: seq<Frame>, calls: seq<Call>, failure: Option<Cause>, rest: seq<Frame>)

  function ExchangePart(cfg: Config, ending: Cause, id: uint32, path: string, query: string, input: seq<Frame>): Part {
    if input == [] then Part([], [], Some(ending), [])
    else
      var refusal := SubmitRefusal(cfg, id, input[0]);
      if refusal.Some? then Part([], [], refusal, input[1..])
      else
        var m := input[0].meta;
        var (s, rest) := Drain(cfg.rules, id, m.size, [], input[1..]);
        match s
        case Receiving(_) => Part([], [], Some(ending), rest)
        case Rejected(_, cause) => Part([], [], Some(cause), rest)
        case Complete(body) =>
          if cfg.late(id) then Part([], [], Some(Internal), rest)
          else
            var (calls, p) := Dispatch(cfg, id, path, query, Submission(m.method_, m.headers, body));
            var plan := ReplyPlan(cfg, id, m.method_, p);
            Part(plan.frames, calls, plan.failure, rest)
  }

  /** The frame-by-frame machine inside an exchange does exactly that. */
  lemma {:induction false} ServeUpload(cfg: Config, ending: Cause, s: Phase, input: seq<Frame>)
    requires s.TakeUpload?
    ensures var (d, rest) := Drain(cfg.rules, s.last, s.size, s.got, input);
            var whole := Serve(cfg, ending, s, input);
            match d
            case Receiving(_) => whole == Trace(Fail(cfg, s.last, ending).frames, [])
            case Rejected(_, cause) => whole == Trace(Fail(cfg, s.last, cause).frames, [])
            case Complete(body) =>
              var t := OnVerified(cfg, s, body);
              var more := Serve(cfg, ending, t.next, rest);
              whole == Trace(t.frames + more.output, t.calls + more.calls)
    decreases |input|
  {
    hide OnVerified;
    if input != [] {
      var d := Take(cfg.rules, s.last, s.size, s.got, input[0]);
      if d.Receiving? {
        var t := s.(got := d.got);
        ServeUpload(cfg, ending, t, input[1..]);
        SameVerified(cfg, s, d.got, Drain(cfg.rules, s.last, s.size, s.got, input).0.got);
        var more := Serve(cfg, ending, t, input[1..]);
        assert [] + more.output == more.output && [] + more.calls == more.calls;
      }
    }
  }

  lemma SameVerified(cfg: Config, s: Phase, more: seq<byte>, body: seq<byte>)
    requires s.TakeUpload?
    ensures OnVerified(cfg, s.(got := more), body) == OnVerified(cfg, s, body)
  {
  }

  lemma ServeExchange(cfg: Config, ending: Cause, id: uint32, count: nat, path: string, query: string, input: seq<Frame>)
    ensures var part := ExchangePart(cfg, ending, id, path, query, input);
            var whole := Serve(cfg, ending, AwaitSubmit(id, count, path, query), input);
            if part.failure == None then
              var more := Serve(cfg, ending, Idle(id, count), part.rest);
              whole == Trace(part.frames + more.output, part.calls + more.calls)
            else
              whole == Trace(part.frames + [ErrorFrame(cfg.rules.reportable, id, part.failure.value)], part.calls)
  {
    hide ReplyPlan, Dispatch, Take;
    if input != [] && SubmitRefusal(cfg, id, input[0]).None? {
      var m := input[0].meta;
      var s := TakeUpload(id, count, path, query, m.method_, m.headers, m.size, []);
      ServeUpload(cfg, ending, s, input[1..]);
    }
  }

  /** f is the REQUEST that this call answers, for a resource that may be asked for. */
  predicate Asks(cfg: Config, f: Frame, call: Call, operation: string) {
    && f.kind == Kind.Request && f.id == call.id && f.meta == Target(cfg.authority, call.path, call.query, operation)
    && Uri.IsResource(call.path, call.query)
  }

  /** An EXCHANGE whose upload matched its announced size and digest, and the provider call it justifies. */
  ghost predicate Uploaded(cfg: Config, ask: Frame, submit: Frame, datas: seq<Frame>, end: Frame, call: Call) {
    && Asks(cfg, ask, call, "EXCHANGE")
    && submit.kind == Kind.Request && submit.id == call.id && submit.meta.Submit? && ValidMethod(submit.meta.method_)
    && 0 <= submit.meta.size <= MAX_APP_REQUEST && HeadersOk(submit.meta.headers)
    && (Bodiless(submit.meta.method_) ==> submit.meta.size == 0)
    && |Bodies(datas)| == submit.meta.size && Transcript(cfg.rules.sha, call.id, Bodies(datas), datas, end)
    && (if cfg.isApp
        then call == Exchange(call.id, call.path, call.query,
                              Submission(submit.meta.method_, submit.meta.headers, Bodies(datas)))
        else call.Open? && Bodiless(submit.meta.method_))
  }

  /** The stretch of the input that justifies a provider call. */
  ghost predicate Justifies(cfg: Config, stretch: seq<Frame>, call: Call) {
    || (call.Open? && |stretch| == 1 && Asks(cfg, stretch[0], call, "FETCH"))
    || exists ask, submit, datas, end ::
         stretch == [ask, submit] + datas + [end] && Uploaded(cfg, ask, submit, datas, end, call)
  }

  lemma {:induction false} DrainSkips(r: Rules, id: uint32, size: int, got: seq<byte>, input: seq<Frame>)
    returns (read: seq<Frame>)
    ensures input == read + Drain(r, id, size, got, input).1
    decreases |input|
  {
    read := [];
    if input != [] {
      var t := Take(r, id, size, got, input[0]);
      read := [input[0]];
      if t.Receiving? {
        var more := DrainSkips(r, id, size, t.got, input[1..]);
        read := read + more;
      }
    }
  }

  lemma ExchangeSkips(cfg: Config, ending: Cause, id: uint32, path: string, query: string, input: seq<Frame>)
    returns (read: seq<Frame>)
    ensures input == read + ExchangePart(cfg, ending, id, path, query, input).rest
  {
    read := [];
    if input != [] {
      read := [input[0]];
      if SubmitRefusal(cfg, id, input[0]).None? {
        var more := DrainSkips(cfg.rules, id, input[0].meta.size, [], input[1..]);
        read := read + more;
      }
    }
  }

  lemma UploadJustifies(cfg: Config, ending: Cause, f: Frame, input: seq<Frame>) returns (stretch: seq<Frame>)
    requires f.kind == Kind.Request && f.meta.Target? && f.meta.authority == cfg.authority
    requires f.meta.operation == "EXCHANGE" && Uri.IsResource(f.meta.path, f.meta.query)
    requires ExchangePart(cfg, ending, f.id, f.meta.path, f.meta.query, input).calls != []
    ensures var part := ExchangePart(cfg, ending, f.id, f.meta.path, f.meta.query, input);
            && [f] + input == [] + stretch + part.rest
            && |part.calls| == 1 && Justifies(cfg, stretch, part.calls[0])
  {
    hide ReplyPlan, Take, HeadersOk, Uri.IsResource;
    var part := ExchangePart(cfg, ending, f.id, f.meta.path, f.meta.query, input);
    var submit := input[0];
    var datas, end := DrainSound(cfg.rules, f.id, submit.meta.size, [], input[1..]);
    var body := Drain(cfg.rules, f.id, submit.meta.size, [], input[1..]).0.got;
    assert body == Bodies(datas);
    stretch := [f, submit] + datas + [end];
    assert input == [submit] + (datas + [end] + part.rest);
    assert Uploaded(cfg, f, submit, datas, end, part.calls[0]);
  }

  /** One conversation: what it reads, its provider call if any, and where the session goes on if it does. */
  lemma IdleStep(cfg: Config, ending: Cause, last: uint32, count: nat, input: seq<Frame>)
    returns (read: seq<Frame>, calls: seq<Call>, rest: seq<Frame>, goesOn: bool)
    requires input != []
    ensures input == read + rest && |rest| < |input|
    ensures calls != [] ==> |calls| == 1 && Justifies(cfg, read, calls[0])
    ensures Serve(cfg, ending, Idle(last, count), input).calls
         == calls + if goesOn then Serve(cfg, ending, Idle(input[0].id, count + 1), rest).calls else []
  {
    var f := input[0];
    var t := OnRequest(cfg, last, count, f);
    if t.next.AwaitSubmit? {
      read, calls, rest, goesOn := ExchangeStep(cfg, ending, last, count, input);
    } else {
      hide TransferPlan, Refusal;
      read, calls, rest, goesOn := [f], t.calls, input[1..], t.next.Idle?;
      RequestAsks(cfg, last, count, f);
    }
  }

  lemma RequestAsks(cfg: Config, last: uint32, count: nat, f: Frame)
    ensures var t := OnRequest(cfg, last, count, f);
            && (t.calls != [] ==> |t.calls| == 1 && t.calls[0].Open? && Asks(cfg, f, t.calls[0], "FETCH"))
            && (t.next.Idle? ==> t.next == Idle(f.id, count + 1))
            && (t.next.AwaitSubmit? ==>
                  && t.next == AwaitSubmit(f.id, count + 1, f.meta.path, f.meta.query) && t.calls == []
                  && f.kind == Kind.Request && f.meta.Target? && f.meta.authority == cfg.authority
                  && f.meta.operation == "EXCHANGE" && Uri.IsResource(f.meta.path, f.meta.query))
            && (!t.next.Idle? && !t.next.AwaitSubmit? ==> t.next.Stopped?)
  {
    hide TransferPlan;
  }

  lemma ExchangeStep(cfg: Config, ending: Cause, last: uint32, count: nat, input: seq<Frame>)
    returns (read: seq<Frame>, calls: seq<Call>, rest: seq<Frame>, goesOn: bool)
    requires input != [] && OnRequest(cfg, last, count, input[0]).next.AwaitSubmit?
    ensures input == read + rest && |rest| < |input|
    ensures calls != [] ==> |calls| == 1 && Justifies(cfg, read, calls[0])
    ensures Serve(cfg, ending, Idle(last, count), input).calls
         == calls + if goesOn then Serve(cfg, ending, Idle(input[0].id, count + 1), rest).calls else []
  {
    var f := input[0];
    RequestAsks(cfg, last, count, f);
    ServeOne(cfg, ending, last, count, input);
    var path, query := f.meta.path, f.meta.query;
    hide OnRequest, ExchangePart, Justifies, Serve, Uploaded;
    var part := ExchangePart(cfg, ending, f.id, path, query, input[1..]);
    ServeExchange(cfg, ending, f.id, count + 1, path, query, input[1..]);
    read := ExchangeReads(cfg, ending, f, input[1..]);
    calls, rest, goesOn := part.calls, part.rest, part.failure == None;
    assert input == [f] + input[1..];
  }

  lemma ExchangeReads(cfg: Config, ending: Cause, f: Frame, input: seq<Frame>) returns (read: seq<Frame>)
    requires f.kind == Kind.Request && f.meta.Target? && f.meta.authority == cfg.authority
    requires f.meta.operation == "EXCHANGE" && Uri.IsResource(f.meta.path, f.meta.query)
    ensures var part := ExchangePart(cfg, ending, f.id, f.meta.path, f.meta.query, input);
            && [f] + input == read + part.rest && |part.rest| <= |input|
            && (part.calls != [] ==> |part.calls| == 1 && Justifies(cfg, read, part.calls[0]))
  {
    hide ExchangePart, Justifies;
    var part := ExchangePart(cfg, ending, f.id, f.meta.path, f.meta.query, input);
    var skipped := ExchangeSkips(cfg, ending, f.id, f.meta.path, f.meta.query, input);
    read := [f] + skipped;
    assert [f] + (skipped + part.rest) == read + part.rest;
    if part.calls != [] {
      read := UploadJustifies(cfg, ending, f, input);
      assert [] + read == read;
    }
  }

  lemma ServeOne(cfg: Config, ending: Cause, last: uint32, count: nat, input: seq<Frame>)
    requires input != []
    ensures var t := OnRequest(cfg, last, count, input[0]);
            var more := Serve(cfg, ending, t.next, input[1..]);
            && Serve(cfg, ending, Idle(last, count), input) == Trace(t.frames + more.output, t.calls + more.calls)
            && (t.calls == [] ==> Serve(cfg, ending, Idle(last, count), input).calls == more.calls)
  {
    var t := OnFrame(cfg, Idle(last, count), input[0]);
    hide OnRequest;
    var more := Serve(cfg, ending, t.next, input[1..]);
    assert [] + more.calls == more.calls;
  }

  lemma NoInputNoCalls(cfg: Config, ending: Cause, last: uint32, count: nat)
    ensures Serve(cfg, ending, Idle(last, count), []).calls == []
  {
  }

  /** For every frame sequence: each provider call answers a complete request of the input, an EXCHANGE only after
      its whole upload matched the announced size and digest. */
  lemma {:induction false} CallJustified(cfg: Config, ending: Cause, last: uint32, count: nat, input: seq<Frame>, j: nat)
    returns (before: seq<Frame>, stretch: seq<Frame>, after: seq<Frame>)
    requires j < |Serve(cfg, ending, Idle(last, count), input).calls|
    ensures input == before + stretch + after
    ensures Justifies(cfg, stretch, Serve(cfg, ending, Idle(last, count), input).calls[j])
    decreases |input|
  {
    hide Serve, Justifies;
    NoInputNoCalls(cfg, ending, last, count);
    var read, calls, rest, goesOn := IdleStep(cfg, ending, last, count, input);
    if j < |calls| {
      before, stretch, after := [], read, rest;
    } else {
      before, stretch, after := CallJustified(cfg, ending, input[0].id, count + 1, rest, j - |calls|);
      assert input == (read + before) + stretch + after;
      before := read + before;
    }
  }

  // ----- what a client is told, condition by condition -----

  /** The remote errors the server makes itself may be reported: their codes are upper-case words. */
  predicate Standard(cfg: Config) {
    && cfg.rules.reportable(RemoteError("PROTOCOL_ERROR", "invalid DEEP message"))
    && cfg.rules.reportable(RemoteError("INTERNAL_ERROR", "resource provider failed"))
    && cfg.rules.reportable(RemoteError("UNSUPPORTED_VERSION", "no common application version"))
    && cfg.rules.reportable(RemoteError("UNKNOWN_AUTHORITY", "this server does not serve that authority"))
    && cfg.rules.reportable(RemoteError("UNSUPPORTED_OPERATION", "this operation is not supported"))
    && cfg.rules.reportable(RemoteError("SESSION_LIMIT", "session request limit reached; open a new connection"))
    && cfg.rules.reportable(RemoteError("RATE_LIMITED", "peer request rate limit reached"))
    && cfg.rules.reportable(RemoteError("TOO_LARGE", "resource exceeds the server limit"))
    && cfg.rules.reportable(RemoteError("RESOURCE_CHANGED", "resource size changed during transfer"))
  }

  /** The turn sends one ERROR with that code under that ID, calls no provider and ends the session. */
  predicate Denies(t: Turn, id: uint32, code: string) {
    && |t.frames| == 1 && t.frames[0].kind == Error && t.frames[0].id == id && t.frames[0].meta.Report?
    && t.frames[0].meta.error.code == code && t.calls == [] && t.next == Stopped
  }

  /** The last frame is an ERROR with that code under that ID, and the session is over. */
  predicate EndsWith(t: Turn, id: uint32, code: string) {
    && t.frames != [] && t.next == Stopped
    && var f := t.frames[|t.frames| - 1]; f.kind == Error && f.id == id && f.meta.Report? && f.meta.error.code == code
  }

  /** A REQUEST the server understands: for itself, an operation it has, a resource that may be asked for. */
  ghost predicate Understood(cfg: Config, f: Frame) {
    && f.meta.Target? && Uri.IsAuthority(f.meta.authority) && f.meta.authority == cfg.authority
    && (f.meta.operation == "FETCH" || f.meta.operation == "EXCHANGE") && Uri.IsResource(f.meta.path, f.meta.query)
  }

  /** An offer of 1 to 16 different versions from 1 to 65535. */
  predicate Offers(f: Frame) {
    && f.kind == Hello && f.meta.Versions? && 1 <= |f.meta.versions| <= 16
    && (forall v :: v in f.meta.versions ==> 1 <= v <= 65535)
    && (forall i, j :: 0 <= i < j < |f.meta.versions| ==> f.meta.versions[i] != f.meta.versions[j])
  }

  lemma OffersIs(f: Frame)
    ensures Offers(f) <==> f.kind == Hello && f.meta.Versions? && OfferOk(f.meta.versions)
  {
    if f.meta.Versions? && Offers(f) {
      assert forall i :: 0 <= i < |f.meta.versions| ==> f.meta.versions[i] in f.meta.versions;
    }
  }

  /** Every first frame: WELCOME exactly for such an offer with 2 in it; UNSUPPORTED_VERSION when only 2 is missing;
      PROTOCOL_ERROR otherwise. */
  lemma HelloAnswered(cfg: Config, f: Frame)
    requires Standard(cfg)
    ensures var t := OnHello(cfg, f);
            && (Offers(f) && 2 in f.meta.versions ==> t == Turn([Frame(Welcome, 0, Chosen(2, 65536), [])], [], Idle(0, 0)))
            && (Offers(f) && 2 !in f.meta.versions ==> Denies(t, 0, "UNSUPPORTED_VERSION"))
            && (!Offers(f) ==> Denies(t, 0, "PROTOCOL_ERROR"))
  {
    OffersIs(f);
    hide Offers, OfferOk;
  }

  /** Every frame of an idle session: CLOSE ends it, with an ERROR only if it carries metadata; anything but a REQUEST
      with a larger ID is a protocol error; a REQUEST is answered by the first condition it fails, and is served
      otherwise. */
  lemma RequestAnswered(cfg: Config, last: uint32, count: nat, f: Frame)
    requires Standard(cfg)
    ensures var t := OnRequest(cfg, last, count, f);
            var asks := f.kind == Kind.Request && f.id > last;
            && (f.kind == Close && f.meta == Empty ==> t == Turn([], [], Stopped))
            && (f.kind == Close && f.meta != Empty ==> Denies(t, 0, "PROTOCOL_ERROR"))
            && (f.kind != Close && !asks ==> Denies(t, f.id, "PROTOCOL_ERROR"))
            && (asks && !f.meta.Target? ==> Denies(t, f.id, "PROTOCOL_ERROR"))
            && (asks && f.meta.Target? ==>
                  var authority, operation := f.meta.authority, f.meta.operation;
                  var known := operation == "FETCH" || operation == "EXCHANGE";
                  && (!Uri.IsAuthority(authority) ==> Denies(t, f.id, "PROTOCOL_ERROR"))
                  && (Uri.IsAuthority(authority) && authority != cfg.authority ==> Denies(t, f.id, "UNKNOWN_AUTHORITY"))
                  && (Uri.IsAuthority(authority) && authority == cfg.authority ==>
                        && (!known ==> Denies(t, f.id, "UNSUPPORTED_OPERATION"))
                        && (known && !Uri.IsResource(f.meta.path, f.meta.query) ==> Denies(t, f.id, "PROTOCOL_ERROR"))))
            && (asks && Understood(cfg, f) ==>
                  && (count >= cfg.maxRequests ==> Denies(t, f.id, "SESSION_LIMIT"))
                  && (count < cfg.maxRequests && !cfg.allow(f.id) ==> Denies(t, f.id, "RATE_LIMITED"))
                  && (count < cfg.maxRequests && cfg.allow(f.id) ==>
                        if f.meta.operation == "FETCH" then t.calls == [Open(f.id, f.meta.path, f.meta.query)]
                        else t == Turn([Frame(Continue, f.id, Ready("app/1", 0x10_0000), [])], [],
                                       AwaitSubmit(f.id, count + 1, f.meta.path, f.meta.query))))
  {
    hide TransferPlan;
  }

  /** The answer to a FETCH: the provider's resource, or the error that tells why not. */
  lemma FetchAnswered(cfg: Config, id: uint32, count: nat, calls: seq<Call>, p: Provision)
    requires Standard(cfg)
    ensures var t := Carry(cfg, id, count, calls, TransferPlan(cfg, id, p));
            && (p.Refused? && p.cause.Remote? && cfg.rules.reportable(p.cause.error) ==> EndsWith(t, id, p.cause.error.code))
            && (p.Refused? && p.cause.Internal? ==> EndsWith(t, id, "INTERNAL_ERROR"))
            && (p.Provided? ==>
                  var sound := p.resource.body.Some? && 0 <= p.resource.size <= MAX_RESOURCE && ValidMediaType(p.resource.mediaType);
                  && (!sound ==> EndsWith(t, id, "INTERNAL_ERROR") && |t.frames| == 1)
                  && (sound && p.resource.size > cfg.maxBytes ==> EndsWith(t, id, "TOO_LARGE") && |t.frames| == 1)
                  && (sound && p.resource.size <= cfg.maxBytes ==>
                        Replies(cfg, t, id, count, Described(p.resource.mediaType, p.resource.size),
                                p.resource.body.value, p.resource.size)))
  {
    hide SenderFrames;
  }

  /** RESPONSE with that metadata and the body; then idle again after END exactly when the reader was exact, and else
      an ERROR. */
  predicate Replies(cfg: Config, t: Turn, id: uint32, count: nat, meta: Meta, c: Content, size: nat) {
    var frames := [Frame(Response, id, meta, [])] + SenderFrames(cfg.rules.sha, id, c, size);
    if Exact(c, size) then t.frames == frames && t.next == Idle(id, count)
    else frames == t.frames[..|t.frames| - (if t.frames == [] then 0 else 1)]
         && EndsWith(t, id, if Lapses(c, size) then "INTERNAL_ERROR" else "RESOURCE_CHANGED")
  }

  /** What a verified upload gets: an application provider's own answer; from a provider that only serves resources,
      200 and the resource for GET and HEAD, and a fixed 405 for every other method without asking it. */
  lemma SubmissionAnswered(cfg: Config, id: uint32, path: string, query: string, r: Submission)
    ensures var (calls, p) := Dispatch(cfg, id, path, query, r);
            && (cfg.isApp ==> calls == [Exchange(id, path, query, r)] && p == cfg.handler(calls[0]))
            && (!cfg.isApp && (r.method_ == "GET" || r.method_ == "HEAD") ==>
                  && calls == [Open(id, path, query)]
                  && (var h := cfg.handler(calls[0]);
                      && (h.Refused? ==> p == h)
                      && (h.Provided? ==> p == Provided(200, [], h.resource))))
            && (!cfg.isApp && r.method_ != "GET" && r.method_ != "HEAD" ==>
                  && calls == [] && p.Provided? && p.status == 405 && p.headers == [Header("allow", "GET, HEAD")]
                  && p.resource.mediaType == "text/plain; charset=utf-8" && p.resource.size == |GetOnly()|
                  && p.resource.body.Some? && p.resource.body.value.clean && Spells(p.resource.body.value.data, GetOnly()))
  {
    hide GetOnly;
  }

  /** One byte a character, as in ASCII. */
  predicate Spells(data: seq<byte>, text: string) {
    |data| == |text| && forall i :: 0 <= i < |text| ==> data[i] == text[i] as int % 256
  }

  /** The answer to an EXCHANGE: the provider's status, headers and body, no body for HEAD, or the error. */
  lemma ReplyAnswered(cfg: Config, id: uint32, count: nat, calls: seq<Call>, method_: string, p: Provision)
    requires Standard(cfg)
    ensures var t := Carry(cfg, id, count, calls, ReplyPlan(cfg, id, method_, p));
            && (p.Refused? && p.cause.Remote? && cfg.rules.reportable(p.cause.error) ==> EndsWith(t, id, p.cause.error.code))
            && (p.Refused? && p.cause.Internal? ==> EndsWith(t, id, "INTERNAL_ERROR"))
            && (p.Provided? ==>
                  var head := method_ == "HEAD";
                  var body := if head || p.resource.body == None then Content([], true, None) else p.resource.body.value;
                  var size := if head then 0 else p.resource.size;
                  var meta := Reply(p.status, p.headers, p.resource.mediaType, size);
                  var sound := 200 <= p.status <= 599 && ValidMediaType(p.resource.mediaType)
                               && 0 <= p.resource.size <= cfg.maxBytes && p.resource.size <= 0x100_0000;
                  && (p.resource.body == None ==> EndsWith(t, id, "INTERNAL_ERROR") && |t.frames| == 1)
                  && (p.resource.body.Some? && !HeadersOk(p.headers) ==> EndsWith(t, id, "PROTOCOL_ERROR") && |t.frames| == 1)
                  && (p.resource.body.Some? && HeadersOk(p.headers) ==>
                        && (!sound ==> EndsWith(t, id, "INTERNAL_ERROR") && |t.frames| == 1)
                        && (sound && cfg.oversize(meta) ==> EndsWith(t, id, "PROTOCOL_ERROR") && |t.frames| == 1)
                        && (sound && !cfg.oversize(meta) ==> Replies(cfg, t, id, count, meta, body, size))))
  {
    hide SenderFrames, HeadersOk;
  }

  /** The second REQUEST of an exchange is taken exactly when it is well-formed; a reportable ERROR in its place is
      passed back, everything else is a protocol error. */
  lemma SubmitAnswered(cfg: Config, s: Phase, f: Frame)
    requires s.AwaitSubmit? && Standard(cfg)
    ensures var t := OnSubmit(cfg, s, f);
            var good := f.kind == Kind.Request && f.id == s.last && f.meta.Submit? && ValidMethod(f.meta.method_)
                        && 0 <= f.meta.size <= 0x10_0000 && HeadersOk(f.meta.headers)
                        && (f.meta.method_ == "GET" || f.meta.method_ == "HEAD" ==> f.meta.size == 0);
            if good then t == Turn([], [], TakeUpload(s.last, s.count, s.path, s.query, f.meta.method_, f.meta.headers, f.meta.size, []))
            else Denies(t, s.last, if Reports(cfg.rules, s.last, f) then f.meta.error.code else "PROTOCOL_ERROR")
  {
    hide HeadersOk;
  }

  /** Every frame of an upload: DATA that still fits is kept; the END that matches size and digest hands the submission
      on, unless the time is up; a reportable ERROR is passed back, everything else is a protocol error. */
  lemma UploadAnswered(cfg: Config, s: Phase, f: Frame)
    requires s.TakeUpload? && Standard(cfg)
    ensures var t := OnUpload(cfg, s, f);
            var fits := f.id == s.last && f.kind == Data && f.meta == Empty && |s.got| + |f.body| <= s.size;
            var ends := f.id == s.last && f.kind == End && |s.got| == s.size && f.meta == Ending(s.size, cfg.rules.sha(s.got));
            && (fits ==> t == Turn([], [], s.(got := s.got + f.body)))
            && (ends && cfg.late(s.last) ==> Denies(t, s.last, "INTERNAL_ERROR"))
            && (ends && !cfg.late(s.last) ==>
                  var (calls, p) := Dispatch(cfg, s.last, s.path, s.query, Submission(s.method_, s.headers, s.got));
                  t == Carry(cfg, s.last, s.count, calls, ReplyPlan(cfg, s.last, s.method_, p)))
            && (!fits && !ends ==> Denies(t, s.last, if Reports(cfg.rules, s.last, f) then f.meta.error.code else "PROTOCOL_ERROR"))
  {
    hide Dispatch, ReplyPlan, Carry;
  }

  /** A stream that ends between requests ends in silence; inside an exchange the client is told. */
  lemma EndAnswered(cfg: Config, s: Phase, ending: Cause)
    requires !s.Stopped? && Standard(cfg)
    ensures var t := OnEnd(cfg, s, ending);
            && (s.AwaitHello? || s.Idle? ==> t == Turn([], [], Stopped))
            && (s.AwaitSubmit? || s.TakeUpload? ==>
                  && (ending.Protocol? ==> Denies(t, s.last, "PROTOCOL_ERROR"))
                  && (ending.Internal? ==> Denies(t, s.last, "INTERNAL_ERROR")))
  {
  }
}
