/** The loops of server.go and application.go that carry out the server's state machine on a frame stream. */
module ServerLoop {
  import opened Bytes
  import opened Messages
  import opened Body
  import opened Server
  import Uri

  /** The provider behind the server and the calls it has received. */
  class Host {
    var log: seq<Call>

    constructor ()
      ensures log == []
    {
      log := [];
    }

    method Ask(cfg: Config, call: Call) returns (p: Provision)
      modifies this
      ensures log == old(log) + [call] && p == cfg.handler(call)
    {
      log := log + [call];
      p := cfg.handler(call);
    }
  }

  /** sendError: a failed write of the ERROR changes nothing. */
  method SendError(cfg: Config, conn: Conn, id: uint32, cause: Cause)
    modifies conn`output, conn`room
    ensures conn.Sent(old(conn.output), old(conn.room), [ErrorFrame(cfg.rules.reportable, id, cause)])
  {
    var _ := conn.Send(ErrorFrame(cfg.rules.reportable, id, cause));
  }

  /** The chunk loop of transfer: written apart from sendBody, it emits the same frames. */
  method TransferChunks(conn: Conn, id: uint32, body: Source, size: nat) returns (hashed: seq<byte>, err: Option<Cause>)
    modifies conn`output, conn`room, body`rest
    ensures var c := old(body.Holds());
            var frames := DataFrames(id, c.data[..SentBytes(c, size)]);
            && conn.Sent(old(conn.output), old(conn.room), frames)
            && (err == None <==> size <= |c.data| && !Lapses(c, size) && |frames| <= old(conn.room))
            && (err.Some? ==> err == Some(if |frames| <= old(conn.room) then Fault(c, size) else Internal))
            && (err == None ==> hashed == c.data[..size] && body.rest == c.data[size..])
  {
    ghost var c := body.Holds();
    ghost var done: seq<Frame> := [];
    LeftEnds(id, c, size);
    TookNothing(conn.output, conn.room);
    hide Left, SentBytes, DataFrames, Took, Lapses;
    hashed := [];
    var total := 0;
    while total < size
      invariant 0 <= total <= SentBytes(c, size) && total <= size
      invariant total < size ==> total % MAX_CHUNK == 0
      invariant hashed == c.data[..total] && body.rest == c.data[total..]
      invariant Left(id, c, size, 0) == done + Left(id, c, size, total)
      invariant Took(conn.output, conn.room, old(conn.output), old(conn.room), done)
      invariant conn.room + |done| == old(conn.room)
    {
      LeftNext(id, c, size, total, Min(MAX_CHUNK, size - total));
      if body.Expired(total) {
        return hashed, Some(Internal);
      }
      var remaining := size - total;
      var length := MAX_CHUNK;
      if remaining < length {
        length := remaining;
      }
      var chunk := body.ReadFull(length);
      if chunk == None {
        return hashed, Some(CHANGED);
      }
      Slice(c.data, total, length);
      var f := DataFrame(id, chunk.value);
      ghost var left := Left(id, c, size, total + length);
      Regroup(done, f, left);
      ghost var middle, room := conn.output, conn.room;
      var sent := conn.Send(f);
      TookThen(conn.output, conn.room, middle, room, old(conn.output), old(conn.room), done, [f]);
      if !sent {
        TookFull(conn.output, old(conn.output), old(conn.room), done, [f] + left);
        return hashed, Some(Internal);
      }
      done := done + [f];
      hashed := hashed + chunk.value;
      total := total + length;
    }
    err := None;
  }

  /** transfer from its RESPONSE on. */
  method TransferBody(conn: Conn, sha: Hash, id: uint32, body: Source, size: nat) returns (err: Option<Cause>)
    modifies conn`output, conn`room, body`rest
    ensures var c := old(body.Holds());
            var frames := SenderFrames(sha, id, c, size);
            && conn.Sent(old(conn.output), old(conn.room), frames)
            && (err == None <==> Exact(c, size) && |frames| <= old(conn.room))
            && (err.Some? ==> err == Some(if |frames| <= old(conn.room) then Fault(c, size) else Internal))
  {
    ghost var c := body.Holds();
    ghost var datas := DataFrames(id, c.data[..SentBytes(c, size)]);
    SenderParts(sha, id, c, size);
    hide SenderFrames, SentBytes, DataFrames, Took;
    var hashed;
    hashed, err := TransferChunks(conn, id, body, size);
    TookFits(conn.output, conn.room, old(conn.output), old(conn.room), datas);
    if err != None {
      if conn.room == 0 {
        TookFull(conn.output, old(conn.output), old(conn.room), datas, [EndFrame(sha, id, c.data)]);
      }
      return;
    }
    var ended := body.AtEnd();
    if !ended {
      return Some(CHANGED);
    }
    assert hashed == c.data;
    ghost var middle, room := conn.output, conn.room;
    var sent := conn.Send(Frame(End, id, Ending(size, sha(hashed)), []));
    TookThen(conn.output, conn.room, middle, room, old(conn.output), old(conn.room), datas, [EndFrame(sha, id, c.data)]);
    err := if sent then None else Some(Internal);
  }

  /** A plan was put on a stream that had that output and room, as far as it had room, and err tells how it went. */
  ghost predicate Planned(conn: Conn, before: seq<Frame>, had: nat, plan: Plan, err: Option<Cause>)
    reads conn
  {
    && Took(conn.output, conn.room, before, had, plan.frames)
    && (if |plan.frames| <= had then err == plan.failure else err.Some?)
  }

  function AnswerPlan(sha: Hash, id: uint32, meta: Meta, c: Content, size: nat): Plan {
    Plan([Frame(Response, id, meta, [])] + SenderFrames(sha, id, c, size), if Exact(c, size) then None else Some(Fault(c, size)))
  }

  /** The RESPONSE and body of transfer. */
  method SendResource(conn: Conn, sha: Hash, id: uint32, meta: Meta, c: Content, size: nat) returns (err: Option<Cause>)
    modifies conn`output, conn`room
    ensures Planned(conn, old(conn.output), old(conn.room), AnswerPlan(sha, id, meta, c, size), err)
  {
    var head := Frame(Response, id, meta, []);
    hide SenderFrames, Took, Exact;
    ghost var before, had := conn.output, conn.room;
    var sent := conn.Send(head);
    if !sent {
      TookFull(conn.output, before, had, [head], SenderFrames(sha, id, c, size));
      return Some(Internal);
    }
    var body := new Source(c);
    ghost var middle, left := conn.output, conn.room;
    err := TransferBody(conn, sha, id, body, size);
    TookThen(conn.output, conn.room, middle, left, before, had, [head], SenderFrames(sha, id, c, size));
  }

  /** transfer, the FETCH operation. */
  method Transfer(cfg: Config, conn: Conn, host: Host, id: uint32, path: string, query: string)
    returns (err: Option<Cause>)
    modifies conn`output, conn`room, host
    ensures var call := Open(id, path, query);
            && host.log == old(host.log) + [call]
            && Planned(conn, old(conn.output), old(conn.room), TransferPlan(cfg, id, cfg.handler(call)), err)
  {
    hide SenderFrames;
    var p := host.Ask(cfg, Open(id, path, query));
    if p.Refused? {
      return Some(p.cause);
    }
    if p.resource.body == None {
      return Some(Internal);
    }
    var size := p.resource.size;
    if size < 0 || size > MAX_RESOURCE || !ValidMediaType(p.resource.mediaType) {
      return Some(Internal);
    }
    if size > cfg.maxBytes {
      return Some(Failure("TOO_LARGE", "resource exceeds the server limit"));
    }
    err := SendResource(conn, cfg.rules.sha, id, Described(p.resource.mediaType, size), p.resource.body.value, size);
  }

  /** The RESPONSE and body of an application answer. */
  method SendReply(conn: Conn, sha: Hash, id: uint32, meta: Meta, c: Content, size: nat) returns (err: Option<Cause>)
    modifies conn`output, conn`room
    ensures Planned(conn, old(conn.output), old(conn.room), AnswerPlan(sha, id, meta, c, size), err)
  {
    var head := Frame(Response, id, meta, []);
    hide SenderFrames, Took, Exact;
    ghost var before, had := conn.output, conn.room;
    var sent := conn.Send(head);
    if !sent {
      TookFull(conn.output, before, had, [head], SenderFrames(sha, id, c, size));
      return Some(Internal);
    }
    var body := new Source(c);
    ghost var middle, left := conn.output, conn.room;
    err := SendBody(conn, sha, id, body, size);
    TookThen(conn.output, conn.room, middle, left, before, had, [head], SenderFrames(sha, id, c, size));
  }

  /** The reply half of exchange. */
  method Respond(cfg: Config, conn: Conn, id: uint32, method_: string, p: Provision) returns (err: Option<Cause>)
    modifies conn`output, conn`room
    ensures Planned(conn, old(conn.output), old(conn.room), ReplyPlan(cfg, id, method_, p), err)
  {
    hide SenderFrames, HeadersOk;
    if p.Refused? {
      return Some(p.cause);
    }
    if p.resource.body == None {
      return Some(Internal);
    }
    var headersOk := ValidateHeaders(p.headers);
    if !headersOk {
      return Some(Protocol);
    }
    if p.status < 200 || p.status > 599 || !ValidMediaType(p.resource.mediaType)
       || p.resource.size < 0 || p.resource.size > Min(cfg.maxBytes, MAX_APP_RESPONSE) {
      return Some(Internal);
    }
    var payload, size := p.resource.body.value, p.resource.size;
    if method_ == "HEAD" {
      payload, size := Content([], true, None), 0;
    }
    var meta := Reply(p.status, p.headers, p.resource.mediaType, size);
    if cfg.oversize(meta) {
      return Some(Protocol);
    }
    err := SendReply(conn, cfg.rules.sha, id, meta, payload, size);
  }

  method Handle(cfg: Config, host: Host, id: uint32, path: string, query: string, r: Submission) returns (p: Provision)
    modifies host
    ensures (host.log, p) == (old(host.log) + Dispatch(cfg, id, path, query, r).0, Dispatch(cfg, id, path, query, r).1)
  {
    if cfg.isApp {
      p := host.Ask(cfg, Exchange(id, path, query, r));
    } else if Bodiless(r.method_) {
      p := host.Ask(cfg, Open(id, path, query));
      if p.Provided? {
        p := Provided(200, [], p.resource);
      }
    } else {
      p := NotAllowed(cfg.lapse(id));
      assert host.log == old(host.log) + [];
    }
  }

  /** The upload half of exchange: the second REQUEST and its verified body. */
  method ReceiveSubmission(cfg: Config, conn: Conn, id: uint32) returns (r: Option<Submission>, err: Option<Cause>)
    modifies conn`input
    ensures var input := old(conn.input);
            if input == [] then r == None && err == Some(conn.ending)
            else if SubmitRefusal(cfg, id, input[0]).Some? then r == None && err == SubmitRefusal(cfg, id, input[0])
            else
              var m := input[0].meta;
              var (s, rest) := Drain(cfg.rules, id, m.size, [], input[1..]);
              match s
              case Receiving(_) => r == None && err == Some(conn.ending)
              case Rejected(_, cause) => r == None && err == Some(cause)
              case Complete(body) =>
                if cfg.late(id) then r == None && err == Some(Internal)
                else r == Some(Submission(m.method_, m.headers, body)) && err == None && conn.input == rest
  {
    hide HeadersOk, Expect;
    r := None;
    var frame := conn.Read();
    if frame == None {
      return None, Some(conn.ending);
    }
    var f := frame.value;
    var refusal := Expect(cfg.rules.reportable, f, Kind.Request, id);
    if refusal.Some? {
      return None, refusal;
    }
    if !f.meta.Submit? {
      return None, Some(Protocol);
    }
    if !ValidMethod(f.meta.method_) || f.meta.size < 0 || f.meta.size > MAX_APP_REQUEST {
      return None, Some(Protocol);
    }
    if Bodiless(f.meta.method_) && f.meta.size != 0 {
      return None, Some(Protocol);
    }
    var headersOk := ValidateHeaders(f.meta.headers);
    if !headersOk {
      return None, Some(Protocol);
    }
    ghost var k := DrainDelivers(cfg.rules, id, f.meta.size, [], conn.input);
    hide Drain;
    var body := new Sink(f.meta.size);
    var digest;
    digest, err := ReceiveBody(conn, cfg.rules, id, f.meta.size, body, cfg.late(id));
    if err.None? {
      assert body.data == Drain(cfg.rules, id, f.meta.size, [], old(conn.input)[1..]).0.got;
      r := Some(Submission(f.meta.method_, f.meta.headers, body.data));
    }
  }

  /** exchange after CONTINUE went out. */
  method ReceiveAndRespond(cfg: Config, conn: Conn, host: Host, id: uint32, path: string, query: string)
    returns (err: Option<Cause>)
    modifies conn, host
    ensures conn.ending == old(conn.ending)
    ensures var part := ExchangePart(cfg, old(conn.ending), id, path, query, old(conn.input));
            && host.log == old(host.log) + part.calls
            && Planned(conn, old(conn.output), old(conn.room), Plan(part.frames, part.failure), err)
            && (err == None ==> conn.input == part.rest)
  {
    hide Dispatch, ReplyPlan, SubmitRefusal, Drain;
    var r;
    r, err := ReceiveSubmission(cfg, conn, id);
    if r.None? {
      return;
    }
    var p := Handle(cfg, host, id, path, query, r.value);
    err := Respond(cfg, conn, id, r.value.method_, p);
  }

  function CONTINUE(id: uint32): Frame { Frame(Continue, id, Ready(PROFILE, MAX_APP_REQUEST), []) }

  /** The checks of an idle session's REQUEST, in their order. */
  method CheckRequest(cfg: Config, count: nat, f: Frame) returns (refusal: Option<Cause>)
    ensures refusal == Refusal(cfg, count, f)
  {
    if !f.meta.Target? {
      return Some(Protocol);
    }
    var authorityOk := Uri.ValidateAuthority(f.meta.authority);
    if !authorityOk {
      return Some(Protocol);
    }
    if f.meta.authority != cfg.authority {
      return Some(Failure("UNKNOWN_AUTHORITY", "this server does not serve that authority"));
    }
    if f.meta.operation != "FETCH" && f.meta.operation != "EXCHANGE" {
      return Some(Failure("UNSUPPORTED_OPERATION", "this operation is not supported"));
    }
    var resourceOk := Uri.ValidateResource(f.meta.path, f.meta.query);
    if !resourceOk {
      return Some(Protocol);
    }
    if count >= cfg.maxRequests {
      return Some(Failure("SESSION_LIMIT", "session request limit reached; open a new connection"));
    }
    if !cfg.allow(f.id) {
      return Some(Failure("RATE_LIMITED", "peer request rate limit reached"));
    }
    refusal := None;
  }

  /** The version offer of HELLO, checked element by element. */
  method CheckOffer(versions: seq<int>) returns (ok: bool)
    ensures ok <==> OfferOk(versions)
  {
    if |versions| == 0 || |versions| > 16 {
      return false;
    }
    var seen: set<int> := {};
    for k := 0 to |versions|
      invariant seen == set i | 0 <= i < k :: versions[i]
      invariant forall i :: 0 <= i < k ==> 1 <= versions[i] <= 65535
      invariant forall i, j :: 0 <= i < j < k ==> versions[i] != versions[j]
    {
      if versions[k] < 1 || versions[k] > 65535 || versions[k] in seen {
        return false;
      }
      seen := seen + {versions[k]};
    }
    ok := true;
  }

  /** The tail of a failed operation: nothing, or its ERROR. */
  function Tail(cfg: Config, id: uint32, failure: Option<Cause>): seq<Frame> {
    if failure == None then [] else [ErrorFrame(cfg.rules.reportable, id, failure.value)]
  }

  /** One turn of the request loop: what it sends and asks, whether it ends the session, what it leaves unread. */
  ghost function RequestPart(cfg: Config, ending: Cause, last: uint32, count: nat, input: seq<Frame>): Part
    requires input != []
  {
    var f := input[0];
    var t := OnRequest(cfg, last, count, f);
    if t.next.AwaitSubmit? then
      var p := ExchangePart(cfg, ending, f.id, f.meta.path, f.meta.query, input[1..]);
      p.(frames := [CONTINUE(f.id)] + (p.frames + Tail(cfg, f.id, p.failure)))
    else Part(t.frames, t.calls, if t.next.Idle? then None else Some(Internal), input[1..])
  }

  /** Whether and where the session goes on after a part. */
  ghost function Onward(cfg: Config, ending: Cause, part: Part, id: uint32, count: nat): Trace {
    if part.failure == None then Serve(cfg, ending, Idle(id, count + 1), part.rest) else Trace([], [])
  }

  lemma ServeRequestPart(cfg: Config, ending: Cause, last: uint32, count: nat, input: seq<Frame>)
    requires input != []
    ensures var part := RequestPart(cfg, ending, last, count, input);
            var more := Onward(cfg, ending, part, input[0].id, count);
            Serve(cfg, ending, Idle(last, count), input) == Trace(part.frames + more.output, part.calls + more.calls)
  {
    RequestAsks(cfg, last, count, input[0]);
    ServeOne(cfg, ending, last, count, input);
    var t := OnRequest(cfg, last, count, input[0]);
    if t.next.AwaitSubmit? {
      ServeExchangePart(cfg, ending, last, count, input);
    } else {
      hide OnRequest;
    }
  }

  lemma ServeExchangePart(cfg: Config, ending: Cause, last: uint32, count: nat, input: seq<Frame>)
    requires input != [] && OnRequest(cfg, last, count, input[0]).next.AwaitSubmit?
    ensures var part := RequestPart(cfg, ending, last, count, input);
            var more := Onward(cfg, ending, part, input[0].id, count);
            Serve(cfg, ending, Idle(last, count), input) == Trace(part.frames + more.output, part.calls + more.calls)
  {
    var f := input[0];
    RequestAsks(cfg, last, count, f);
    assert OnRequest(cfg, last, count, f).frames == [CONTINUE(f.id)];
    ServeOne(cfg, ending, last, count, input);
    var path, query := f.meta.path, f.meta.query;
    ServeAfterContinue(cfg, ending, f.id, count, path, query, input[1..]);
    var p := ExchangePart(cfg, ending, f.id, path, query, input[1..]);
    hide OnRequest, ExchangePart, Serve, CONTINUE, Tail;
    var more := Onward(cfg, ending, p, f.id, count);
    Associates([CONTINUE(f.id)], p.frames + Tail(cfg, f.id, p.failure), more.output);
  }

  lemma Associates<T>(a: seq<T>, b: seq<T>, c: seq<T>)
    ensures a + (b + c) == (a + b) + c
  {
  }

  lemma ServeAfterContinue(cfg: Config, ending: Cause, id: uint32, count: nat, path: string, query: string, input: seq<Frame>)
    ensures var p := ExchangePart(cfg, ending, id, path, query, input);
            var more := Onward(cfg, ending, p, id, count);
            Serve(cfg, ending, AwaitSubmit(id, count + 1, path, query), input)
            == Trace((p.frames + Tail(cfg, id, p.failure)) + more.output, p.calls + more.calls)
  {
    ServeExchange(cfg, ending, id, count + 1, path, query, input);
    hide ExchangePart, Serve;
    var p := ExchangePart(cfg, ending, id, path, query, input);
    if p.failure == None {
      assert p.frames + [] == p.frames;
    } else {
      assert (p.frames + Tail(cfg, id, p.failure)) + [] == p.frames + Tail(cfg, id, p.failure);
      assert p.calls + [] == p.calls;
    }
  }

  /** A part of a trace was carried out as far as the stream had room for its frames. */
  ghost predicate PartDone(conn: Conn, host: Host, before: seq<Frame>, had: nat, log: seq<Call>, part: Part, goesOn: bool)
    reads conn, host
  {
    && Took(conn.output, conn.room, before, had, part.frames)
    && log <= host.log <= log + part.calls
    && (|part.frames| <= had ==> host.log == log + part.calls)
    && (goesOn <==> part.failure == None && |part.frames| <= had)
    && (goesOn ==> conn.input == part.rest)
  }

  lemma FetchRequestPart(cfg: Config, ending: Cause, last: uint32, count: nat, input: seq<Frame>)
    requires input != []
    requires var f := input[0];
             && f.kind == Kind.Request && f.id > last && Refusal(cfg, count, f).None? && f.meta.Target?
             && f.meta.operation != "EXCHANGE"
    ensures var f := input[0];
            var call := Open(f.id, f.meta.path, f.meta.query);
            var plan := TransferPlan(cfg, f.id, cfg.handler(call));
            RequestPart(cfg, ending, last, count, input)
            == Part(plan.frames + Tail(cfg, f.id, plan.failure), [call],
                    if plan.failure == None then None else Some(Internal), input[1..])
  {
    var f := input[0];
    var plan := TransferPlan(cfg, f.id, cfg.handler(Open(f.id, f.meta.path, f.meta.query)));
    assert plan.frames + [] == plan.frames;
    hide TransferPlan, Refusal;
  }

  lemma ExchangeRequestPart(cfg: Config, ending: Cause, last: uint32, count: nat, input: seq<Frame>)
    requires input != []
    requires var f := input[0];
             && f.kind == Kind.Request && f.id > last && Refusal(cfg, count, f).None? && f.meta.Target?
             && f.meta.operation == "EXCHANGE"
    ensures var f := input[0];
            var p := ExchangePart(cfg, ending, f.id, f.meta.path, f.meta.query, input[1..]);
            RequestPart(cfg, ending, last, count, input)
            == p.(frames := [CONTINUE(f.id)] + (p.frames + Tail(cfg, f.id, p.failure)))
  {
    var f := input[0];
    var p := ExchangePart(cfg, ending, f.id, f.meta.path, f.meta.query, input[1..]);
    assert p.frames + [] == p.frames;
    hide ExchangePart, Refusal;
  }

  lemma TailFits(cfg: Config, id: uint32, failure: Option<Cause>, a: seq<Frame>, room: int)
    ensures |a + Tail(cfg, id, failure)| <= room <==> |a| <= room && (failure.Some? ==> |a| + 1 <= room)
    ensures |a| + |Tail(cfg, id, failure)| == |a + Tail(cfg, id, failure)|
  {
  }

  /** Whether what an operation still owes the peer went out with it: its ERROR, if it failed. */
  method Close(cfg: Config, conn: Conn, id: uint32, err: Option<Cause>, ghost before: seq<Frame>, ghost had: nat,
               ghost frames: seq<Frame>, ghost failure: Option<Cause>)
    requires Took(conn.output, conn.room, before, had, frames)
    requires if |frames| <= had then err == failure else err.Some?
    modifies conn`output, conn`room
    ensures Took(conn.output, conn.room, before, had, frames + Tail(cfg, id, failure))
  {
    TookFits(conn.output, conn.room, before, had, frames);
    hide Took, ErrorFrame;
    if err.Some? {
      ghost var middle, left := conn.output, conn.room;
      if conn.room == 0 {
        TookFull(conn.output, before, had, frames, Tail(cfg, id, failure));
      }
      SendError(cfg, conn, id, err.value);
      if left > 0 {
        TookThen(conn.output, conn.room, middle, left, before, had, frames, Tail(cfg, id, failure));
      } else {
        StillFull(conn.output, conn.room, middle, [ErrorFrame(cfg.rules.reportable, id, err.value)]);
      }
    } else {
      assert frames + [] == frames;
    }
  }

  lemma StillFull(output: seq<Frame>, room: int, before: seq<Frame>, frames: seq<Frame>)
    requires Took(output, room, before, 0, frames)
    ensures output == before && room == 0
  {
  }

  /** transfer for an accepted request, then the ERROR if it failed. */
  method RunFetch(cfg: Config, conn: Conn, host: Host, last: uint32, count: nat, ghost input: seq<Frame>, f: Frame)
    returns (goesOn: bool)
    requires input != [] && f == input[0] && conn.input == input[1..]
    requires f.kind == Kind.Request && f.id > last && Refusal(cfg, count, f).None? && f.meta.Target?
    requires f.meta.operation != "EXCHANGE"
    modifies conn`output, conn`room, host
    ensures PartDone(conn, host, old(conn.output), old(conn.room), old(host.log),
                     RequestPart(cfg, conn.ending, last, count, input), goesOn)
  {
    FetchRequestPart(cfg, conn.ending, last, count, input);
    ghost var plan := TransferPlan(cfg, f.id, cfg.handler(Open(f.id, f.meta.path, f.meta.query)));
    TailFits(cfg, f.id, plan.failure, plan.frames, conn.room);
    hide RequestPart, TransferPlan, Refusal, Took, Tail;
    var err := Transfer(cfg, conn, host, f.id, f.meta.path, f.meta.query);
    Close(cfg, conn, f.id, err, old(conn.output), old(conn.room), plan.frames, plan.failure);
    goesOn := err == None;
  }

  /** exchange for an accepted request, then the ERROR if it failed. */
  method RunExchange(cfg: Config, conn: Conn, host: Host, last: uint32, count: nat, ghost input: seq<Frame>, f: Frame)
    returns (goesOn: bool)
    requires input != [] && f == input[0] && conn.input == input[1..]
    requires f.kind == Kind.Request && f.id > last && Refusal(cfg, count, f).None? && f.meta.Target?
    requires f.meta.operation == "EXCHANGE"
    modifies conn, host
    ensures conn.ending == old(conn.ending)
    ensures PartDone(conn, host, old(conn.output), old(conn.room), old(host.log),
                     RequestPart(cfg, conn.ending, last, count, input), goesOn)
  {
    ExchangeRequestPart(cfg, conn.ending, last, count, input);
    ghost var p := ExchangePart(cfg, conn.ending, f.id, f.meta.path, f.meta.query, input[1..]);
    ghost var before, had, log := conn.output, conn.room, host.log;
    TailFits(cfg, f.id, p.failure, p.frames, conn.room - 1);
    ghost var owed := p.frames + Tail(cfg, f.id, p.failure);
    hide RequestPart, ExchangePart, Refusal, Took, Tail, CONTINUE;
    var sent := conn.Send(CONTINUE(f.id));
    if !sent {
      TookFull(conn.output, before, had, [CONTINUE(f.id)], owed);
      SendError(cfg, conn, f.id, Internal);
      StillFull(conn.output, conn.room, before, [ErrorFrame(cfg.rules.reportable, f.id, Internal)]);
      return false;
    }
    ghost var middle, left := conn.output, conn.room;
    var err := ReceiveAndRespond(cfg, conn, host, f.id, f.meta.path, f.meta.query);
    Close(cfg, conn, f.id, err, middle, left, p.frames, p.failure);
    TookThen(conn.output, conn.room, middle, left, before, had, [CONTINUE(f.id)], owed);
    goesOn := err == None;
  }

  /** One turn of the request loop. */
  method ServeRequest(cfg: Config, conn: Conn, host: Host, last: uint32, count: nat, f: Frame, ghost input: seq<Frame>)
    returns (goesOn: bool)
    requires input != [] && f == input[0] && conn.input == input[1..]
    modifies conn, host
    ensures conn.ending == old(conn.ending)
    ensures PartDone(conn, host, old(conn.output), old(conn.room), old(host.log),
                     RequestPart(cfg, conn.ending, last, count, input), goesOn)
  {
    hide Refusal, TransferPlan, ExchangePart, Took;
    if f.kind == Kind.Close {
      if f.meta != Empty {
        SendError(cfg, conn, 0, Protocol);
      } else {
        TookNothing(conn.output, conn.room);
      }
      return false;
    }
    if f.kind != Kind.Request || f.id <= last {
      SendError(cfg, conn, f.id, Protocol);
      return false;
    }
    var refusal := CheckRequest(cfg, count, f);
    if refusal.Some? {
      SendError(cfg, conn, f.id, refusal.value);
      return false;
    }
    RefusedUnlessTarget(cfg, count, f);
    if f.meta.operation == "EXCHANGE" {
      goesOn := RunExchange(cfg, conn, host, last, count, input, f);
    } else {
      goesOn := RunFetch(cfg, conn, host, last, count, input, f);
    }
  }

  lemma RefusedUnlessTarget(cfg: Config, count: nat, f: Frame)
    ensures Refusal(cfg, count, f).None? ==> f.meta.Target?
  {
  }

  /** How a connection that began with that output, room and log followed a trace: the stream took what it had room
      for, and if that was all, every provider call was made. */
  ghost predicate Carried(output: seq<Frame>, now: seq<Call>, before: seq<Frame>, had: nat, log: seq<Call>, whole: Trace) {
    && output == before + Fitting(whole.output, had)
    && log <= now <= log + whole.calls
    && (|whole.output| <= had ==> now == log + whole.calls)
  }

  /** A connection midway: what is out and asked so far is the trace up to more, and nothing was held back. */
  ghost predicate Followed(output: seq<Frame>, room: int, now: seq<Call>, before: seq<Frame>, had: nat, log: seq<Call>,
                           whole: Trace, more: Trace) {
    exists out, asked ::
      && whole == Trace(out + more.output, asked + more.calls)
      && output == before + out && room == had - |out| && 0 <= room && now == log + asked
  }

  lemma FollowedFirst(output: seq<Frame>, room: nat, log: seq<Call>, whole: Trace)
    ensures Followed(output, room, log, output, room, log, whole, whole)
  {
    assert whole == Trace([] + whole.output, [] + whole.calls);
    assert output == output + [] && log == log + [];
  }

  lemma FollowedOn(conn: Conn, host: Host, middle: seq<Frame>, left: nat, then_: seq<Call>,
                   before: seq<Frame>, had: nat, log: seq<Call>, whole: Trace, part: Part, more: Trace)
    requires PartDone(conn, host, middle, left, then_, part, true)
    requires Followed(middle, left, then_, before, had, log, whole,
                      Trace(part.frames + more.output, part.calls + more.calls))
    ensures Followed(conn.output, conn.room, host.log, before, had, log, whole, more)
  {
    var out, asked :| && whole == Trace(out + (part.frames + more.output), asked + (part.calls + more.calls))
                      && middle == before + out && left == had - |out| && then_ == log + asked;
    assert out + (part.frames + more.output) == (out + part.frames) + more.output;
    assert asked + (part.calls + more.calls) == (asked + part.calls) + more.calls;
    assert before + (out + part.frames) == middle + part.frames;
    assert log + (asked + part.calls) == then_ + part.calls;
  }

  lemma LastFrames<T>(output: seq<T>, room: int, before: seq<T>, had: nat, out: seq<T>, last: seq<T>, more: seq<T>)
    requires |out| <= had && Took(output, room, before + out, had - |out|, last)
    requires |last| <= had - |out| ==> more == []
    ensures output == before + Fitting(out + (last + more), had)
  {
    FittingAppend(out, last + more, had);
    FittingAppend(last, more, had - |out|);
    assert before + out + Fitting(last, had - |out|) == before + (out + Fitting(last, had - |out|));
  }

  lemma LastCalls<T>(now: seq<T>, log: seq<T>, asked: seq<T>, last: seq<T>, more: seq<T>, all: bool)
    requires log + asked <= now <= log + asked + last
    requires all ==> now == log + asked + last && more == []
    ensures log <= now <= log + (asked + (last + more))
    ensures all ==> now == log + (asked + (last + more))
  {
    assert log + asked + last <= log + (asked + (last + more));
  }

  /** A part that ends the connection, or that the stream had no room for, is all that is followed. */
  lemma FollowedLast(conn: Conn, host: Host, middle: seq<Frame>, left: nat, then_: seq<Call>,
                     before: seq<Frame>, had: nat, log: seq<Call>, whole: Trace, part: Part, more: Trace)
    requires PartDone(conn, host, middle, left, then_, part, false)
    requires part.failure.Some? ==> more == Trace([], [])
    requires Followed(middle, left, then_, before, had, log, whole,
                      Trace(part.frames + more.output, part.calls + more.calls))
    ensures Carried(conn.output, host.log, before, had, log, whole)
  {
    var out, asked :| && whole == Trace(out + (part.frames + more.output), asked + (part.calls + more.calls))
                      && middle == before + out && left == had - |out| && then_ == log + asked;
    LastFrames(conn.output, conn.room, before, had, out, part.frames, more.output);
    LastCalls(host.log, log, asked, part.calls, more.calls, |part.frames| <= left);
  }

  lemma FollowedWhole(output: seq<Frame>, room: int, now: seq<Call>, before: seq<Frame>, had: nat, log: seq<Call>,
                      whole: Trace)
    requires Followed(output, room, now, before, had, log, whole, Trace([], []))
    ensures Carried(output, now, before, had, log, whole)
  {
    var out, asked :| && whole == Trace(out + [], asked + [])
                      && output == before + out && room == had - |out| && now == log + asked;
    assert out + [] == out && asked + [] == asked;
  }

  /** serveConnection after WELCOME: the request loop carries out the session from its idle state. */
  method ServeRequests(cfg: Config, conn: Conn, host: Host)
    modifies conn, host
    ensures Carried(conn.output, host.log, old(conn.output), old(conn.room), old(host.log),
                    Serve(cfg, old(conn.ending), Idle(0, 0), old(conn.input)))
  {
    hide *;
    ghost var whole := Serve(cfg, conn.ending, Idle(0, 0), conn.input);
    FollowedFirst(conn.output, conn.room, host.log, whole);
    var lastID: uint32, requestCount: nat := 0, 0;
    while true
      invariant conn.ending == old(conn.ending)
      invariant Followed(conn.output, conn.room, host.log, old(conn.output), old(conn.room), old(host.log), whole,
                         Serve(cfg, conn.ending, Idle(lastID, requestCount), conn.input))
      decreases |conn.input|
    {
      ghost var input, middle, left, then_ := conn.input, conn.output, conn.room, host.log;
      var frame := conn.Read();
      if frame == None {
        NothingMore(cfg, conn.ending, lastID, requestCount);
        FollowedWhole(conn.output, conn.room, host.log, old(conn.output), old(conn.room), old(host.log), whole);
        return;
      }
      ghost var part := RequestPart(cfg, conn.ending, lastID, requestCount, input);
      ghost var more := Onward(cfg, conn.ending, part, frame.value.id, requestCount);
      OnwardIs(cfg, conn.ending, part, frame.value.id, requestCount);
      ServeRequestPart(cfg, conn.ending, lastID, requestCount, input);
      RestIsShorter(cfg, conn.ending, lastID, requestCount, input);
      var goesOn := ServeRequest(cfg, conn, host, lastID, requestCount, frame.value, input);
      if !goesOn {
        FollowedLast(conn, host, middle, left, then_, old(conn.output), old(conn.room), old(host.log), whole, part, more);
        return;
      }
      FollowedOn(conn, host, middle, left, then_, old(conn.output), old(conn.room), old(host.log), whole, part, more);
      PartRest(conn, host, middle, left, then_, part);
      lastID, requestCount := frame.value.id, requestCount + 1;
    }
  }

  lemma OnwardIs(cfg: Config, ending: Cause, part: Part, id: uint32, count: nat)
    ensures part.failure.Some? ==> Onward(cfg, ending, part, id, count) == Trace([], [])
    ensures part.failure.None? ==>
              Onward(cfg, ending, part, id, count) == Serve(cfg, ending, Idle(id, count + 1), part.rest)
  {
  }

  lemma PartRest(conn: Conn, host: Host, before: seq<Frame>, had: nat, log: seq<Call>, part: Part)
    requires PartDone(conn, host, before, had, log, part, true)
    ensures conn.input == part.rest && part.failure == None
  {
  }

  lemma NothingMore(cfg: Config, ending: Cause, last: uint32, count: nat)
    ensures Serve(cfg, ending, Idle(last, count), []) == Trace([], [])
  {
  }

  lemma RestIsShorter(cfg: Config, ending: Cause, last: uint32, count: nat, input: seq<Frame>)
    requires input != []
    ensures |RequestPart(cfg, ending, last, count, input).rest| < |input|
  {
    var f := input[0];
    RequestAsks(cfg, last, count, f);
    if OnRequest(cfg, last, count, f).next.AwaitSubmit? {
      var read := ExchangeSkips(cfg, ending, f.id, f.meta.path, f.meta.query, input[1..]);
    }
  }

  /** The negotiation: the cause of refusal, or a WELCOME to come. */
  method CheckHello(cfg: Config, f: Frame) returns (refusal: Option<Cause>)
    ensures OnHello(cfg, f) == if refusal.Some? then Fail(cfg, 0, refusal.value) else Turn([WELCOME], [], Idle(0, 0))
  {
    if f.kind != Hello {
      return Some(Protocol);
    }
    if !f.meta.Versions? {
      return Some(Protocol);
    }
    var offerOk := CheckOffer(f.meta.versions);
    if !offerOk {
      return Some(Protocol);
    }
    if VERSION !in f.meta.versions {
      return Some(Failure("UNSUPPORTED_VERSION", "no common application version"));
    }
    refusal := None;
  }

  /** serveConnection from its first frame: for every input, ending and room, the output and the provider calls are
      those of Serve, as far as the stream has room. */
  method ServeConnection(cfg: Config, conn: Conn, host: Host)
    modifies conn, host
    ensures Carried(conn.output, host.log, old(conn.output), old(conn.room), old(host.log),
                    Serve(cfg, old(conn.ending), AwaitHello, old(conn.input)))
  {
    HelloFirst(cfg, conn.ending, conn.input);
    hide Serve, OnHello, Carried, Took;
    var frame := conn.Read();
    if frame == None {
      CarriedHello(conn.output, conn.room, host.log, [], Trace([], []));
      TookNothing(conn.output, conn.room);
      return;
    }
    var refusal := CheckHello(cfg, frame.value);
    ghost var before, had, log := conn.output, conn.room, host.log;
    if refusal.Some? {
      SendError(cfg, conn, 0, refusal.value);
      CarriedShort(conn.output, conn.room, before, had, log, [ErrorFrame(cfg.rules.reportable, 0, refusal.value)]);
      return;
    }
    ghost var more := Serve(cfg, conn.ending, Idle(0, 0), conn.input);
    var sent := conn.Send(WELCOME);
    if !sent {
      CarriedHello(before, had, log, [WELCOME], more);
      return;
    }
    ghost var middle, left := conn.output, conn.room;
    ServeRequests(cfg, conn, host);
    CarriedAfter(conn.output, host.log, middle, left, before, had, log, WELCOME, more);
  }

  lemma CarriedHello(output: seq<Frame>, room: nat, log: seq<Call>, first: seq<Frame>, more: Trace)
    ensures first == [] && more == Trace([], []) ==> Carried(output, log, output, room, log, Trace([], []))
    ensures room == 0 && |first| == 1 ==> Carried(output, log, output, room, log, Trace(first + more.output, more.calls))
  {
  }

  lemma CarriedShort(output: seq<Frame>, room: int, before: seq<Frame>, had: nat, log: seq<Call>, frames: seq<Frame>)
    requires Took(output, room, before, had, frames)
    ensures Carried(output, log, before, had, log, Trace(frames, []))
  {
  }

  lemma CarriedAfter(output: seq<Frame>, now: seq<Call>, middle: seq<Frame>, left: nat,
                     before: seq<Frame>, had: nat, log: seq<Call>, first: Frame, more: Trace)
    requires had > 0 && Took(middle, left, before, had, [first])
    requires Carried(output, now, middle, left, log, more)
    ensures Carried(output, now, before, had, log, Trace([first] + more.output, more.calls))
  {
    FittingAppend([first], more.output, had);
  }

  lemma HelloFirst(cfg: Config, ending: Cause, input: seq<Frame>)
    ensures Serve(cfg, ending, AwaitHello, input)
         == if input == [] then Trace([], [])
            else
              var t := OnHello(cfg, input[0]);
              if t.next.Stopped? then Trace(t.frames, [])
              else
                var more := Serve(cfg, ending, Idle(0, 0), input[1..]);
                Trace([WELCOME] + more.output, more.calls)
  {
    if input != [] {
      var t := OnHello(cfg, input[0]);
      var more := Serve(cfg, ending, t.next, input[1..]);
      assert [] + more.calls == more.calls && t.frames + [] == t.frames;
    }
  }

  /** So for every frame sequence an arbitrary client can send and every moment at which its connection fails: the
      server's output obeys the conversation grammar, and its provider is called at most once per request ID, with
      growing IDs, within the session limit. */
  lemma ConnectionSafe(cfg: Config, ending: Cause, input: seq<Frame>, had: nat, output: seq<Frame>, log: seq<Call>)
    requires Carried(output, log, [], had, [], Serve(cfg, ending, AwaitHello, input))
    ensures !SeeAll(cfg.rules.sha, Opening, output).Illegal?
    ensures |log| <= cfg.maxRequests
    ensures forall i, j :: 0 <= i < j < |log| ==> 0 < log[i].id < log[j].id
  {
    var whole := Serve(cfg, ending, AwaitHello, input);
    hide Serve, SeeAll, See;
    CarriedPrefix(output, log, had, whole);
    OutputLegal(cfg, ending, AwaitHello, input, Opening);
    var rest := whole.output[|output|..];
    assert whole.output == output + rest;
    PrefixLegal(cfg.rules.sha, Opening, output, rest);
    CallsOrdered(cfg, ending, AwaitHello, input);
    hide Carried;
    assert forall i :: 0 <= i < |log| ==> log[i] == whole.calls[i];
  }

  lemma CarriedPrefix(output: seq<Frame>, log: seq<Call>, had: nat, whole: Trace)
    requires Carried(output, log, [], had, [], whole)
    ensures output <= whole.output && log <= whole.calls
  {
    assert [] + whole.calls == whole.calls;
  }

  /** And each of those calls answers a complete request of the input, an EXCHANGE only after its whole upload matched
      the announced size and digest. */
  lemma ConnectionJustified(cfg: Config, ending: Cause, input: seq<Frame>, had: nat, output: seq<Frame>, log: seq<Call>, j: nat)
    returns (before: seq<Frame>, stretch: seq<Frame>, after: seq<Frame>)
    requires Carried(output, log, [], had, [], Serve(cfg, ending, AwaitHello, input)) && j < |log|
    ensures input == before + stretch + after && Justifies(cfg, stretch, log[j])
    ensures Uri.IsResource(log[j].path, log[j].query)
  {
    hide Serve, Justifies;
    CarriedPrefix(output, log, had, Serve(cfg, ending, AwaitHello, input));
    hide Carried;
    HelloCalls(cfg, ending, input);
    before, stretch, after := CallJustified(cfg, ending, 0, 0, input[1..], j);
    before := Prepended(input, before, stretch, after);
    JustifiedResource(cfg, stretch, log[j]);
  }

  lemma JustifiedResource(cfg: Config, stretch: seq<Frame>, call: Call)
    requires Justifies(cfg, stretch, call)
    ensures Uri.IsResource(call.path, call.query)
  {
    hide Uri.IsResource, Transcript, HeadersOk;
  }

  lemma Prepended<T>(input: seq<T>, before: seq<T>, stretch: seq<T>, after: seq<T>) returns (all: seq<T>)
    requires input != [] && input[1..] == before + stretch + after
    ensures input == all + stretch + after
  {
    all := [input[0]] + before;
    assert input == [input[0]] + input[1..];
  }

  lemma HelloCalls(cfg: Config, ending: Cause, input: seq<Frame>)
    ensures var calls := Serve(cfg, ending, AwaitHello, input).calls;
            calls != [] ==> input != [] && calls == Serve(cfg, ending, Idle(0, 0), input[1..]).calls
  {
    HelloFirst(cfg, ending, input);
    hide Serve;
  }
}
