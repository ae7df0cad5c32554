/** The client session (client.go, application.go): one request at a time over a frame stream. */
module Client {
  import opened Bytes
  import opened Messages
  import opened Body

  /** oversize marks metadata whose JSON exceeds 8192 bytes, which send refuses to write. */
  datatype Config = Config(authority: string, maxBytes: int, rules: Rules, oversize: Meta -> bool)

  /** A call after its URI was parsed: the fragment never leaves the client. */
  datatype Call =
    | Fetch(path: string, query: string)
    | Exchange(path: string, query: string, method_: string, headers: seq<Header>, body: seq<byte>)

  /** The local checks of Session.Exchange. */
  predicate CallOk(call: Call) {
    call.Exchange? ==>
      && ValidMethod(call.method_) && |call.body| <= MAX_APP_REQUEST && HeadersOk(call.headers)
      && (Bodiless(call.method_) ==> call.body == [])
  }

  datatype Answer = Stored(mediaType: string, size: int)
                  | Application(status: int, headers: seq<Header>, mediaType: string, size: int)

  function RequestFrame(cfg: Config, id: uint32, call: Call): Frame {
    Frame(Request, id, Target(cfg.authority, call.path, call.query, if call.Fetch? then "FETCH" else "EXCHANGE"), [])
  }

  function SubmitFrame(id: uint32, call: Call): Frame
    requires call.Exchange?
  {
    Frame(Request, id, Submit(call.method_, call.headers, |call.body|), [])
  }

  /** What follows an accepted CONTINUE. */
  function UploadFrames(cfg: Config, id: uint32, call: Call): seq<Frame>
    requires call.Exchange?
  {
    [SubmitFrame(id, call)] + BodyFrames(cfg.rules.sha, id, call.body)
  }

  /** How the client stands in the second half of a conversation; got is what the destination was handed. */
  datatype State =
    | AwaitReply
    | Taking(answer: Answer, got: seq<byte>)
    | Finished(answer: Answer, got: seq<byte>)
    | Failed(cause: Cause, got: seq<byte>)

  /** The RESPONSE frame: the announced answer, or why it is refused. */
  function OnReply(cfg: Config, id: uint32, call: Call, f: Frame): State {
    var refusal := Expect(cfg.rules.reportable, f, Kind.Response, id);
    if refusal.Some? then Failed(refusal.value, [])
    else match call
      case Fetch(_, _) =>
        if !f.meta.Described? || !ValidMediaType(f.meta.mediaType) || f.meta.size < 0 || f.meta.size > MAX_RESOURCE then
          Failed(Protocol, [])
        else if f.meta.size > cfg.maxBytes then Failed(Internal, [])
        else Taking(Stored(f.meta.mediaType, f.meta.size), [])
      case Exchange(_, _, method_, _, _) =>
        if !f.meta.Reply? then Failed(Protocol, [])
        else if f.meta.status < 200 || f.meta.status > 599 || !ValidMediaType(f.meta.mediaType)
             || f.meta.size < 0 || f.meta.size > Min(cfg.maxBytes, MAX_APP_RESPONSE) then Failed(Protocol, [])
        else if method_ == "HEAD" && f.meta.size != 0 then Failed(Protocol, [])
        else if !HeadersOk(f.meta.headers) then Failed(Protocol, [])
        else Taking(Application(f.meta.status, f.meta.headers, f.meta.mediaType, f.meta.size), [])
  }

  function OnBody(cfg: Config, id: uint32, answer: Answer, got: seq<byte>, f: Frame): State {
    match Take(cfg.rules, id, answer.size, got, f)
    case Receiving(more) => Taking(answer, more)
    case Complete(all) => Finished(answer, all)
    case Rejected(some, cause) => Failed(cause, some)
  }

  predicate Waiting(s: State) { s.AwaitReply? || s.Taking? }

  function OnFrame(cfg: Config, id: uint32, call: Call, s: State, f: Frame): State
    requires Waiting(s)
  {
    if s.AwaitReply? then OnReply(cfg, id, call, f) else OnBody(cfg, id, s.answer, s.got, f)
  }

  /** Reading until the conversation is over or nothing more arrives; the second part is left unread. */
  function Run(cfg: Config, id: uint32, call: Call, s: State, input: seq<Frame>): (State, seq<Frame>)
    decreases |input|
  {
    if !Waiting(s) || input == [] then (s, input)
    else Run(cfg, id, call, OnFrame(cfg, id, call, s, input[0]), input[1..])
  }

  /** The frame that must answer an EXCHANGE request, or why it is refused. */
  function OnContinue(cfg: Config, id: uint32, f: Frame): Option<Cause> {
    var refusal := Expect(cfg.rules.reportable, f, Continue, id);
    if refusal.Some? then refusal
    else if !f.meta.Ready? then Some(Protocol)
    else if f.meta.profile != PROFILE || f.meta.maxBody != MAX_APP_REQUEST then Some(Protocol)
    else None
  }

  /** One whole call against whatever arrives: the frames it sends, where it ends, what it leaves unread. */
  datatype Talk = Talk(frames: seq<Frame>, end: State, rest: seq<Frame>)

  function Converse(cfg: Config, ending: Cause, id: uint32, call: Call, input: seq<Frame>): Talk {
    var request := RequestFrame(cfg, id, call);
    if cfg.oversize(request.meta) then Talk([], Failed(Protocol, []), input)
    else if call.Fetch? then
      var (end, rest) := Run(cfg, id, call, AwaitReply, input);
      Talk([request], end, rest)
    else if input == [] then Talk([request], Failed(ending, []), [])
    else
      var refusal := OnContinue(cfg, id, input[0]);
      if refusal.Some? then Talk([request], Failed(refusal.value, []), input[1..])
      else if cfg.oversize(SubmitFrame(id, call).meta) then Talk([request], Failed(Protocol, []), input[1..])
      else
        var (end, rest) := Run(cfg, id, call, AwaitReply, input[1..]);
        Talk([request] + UploadFrames(cfg, id, call), end, rest)
  }

  /** The announced size and the digest of a RESPONSE the client accepts for this call. */
  predicate AnswerFor(cfg: Config, call: Call, f: Frame, id: uint32, answer: Answer) {
    && f.kind == Kind.Response && f.id == id && 0 <= answer.size <= cfg.maxBytes
    && ValidMediaType(answer.mediaType)
    && (call.Fetch? ==>
          f.meta == Described(answer.mediaType, answer.size) && answer.Stored? && answer.size <= MAX_RESOURCE)
    && (call.Exchange? ==>
          && answer.Application? && f.meta == Reply(answer.status, answer.headers, answer.mediaType, answer.size)
          && 200 <= answer.status <= 599 && answer.size <= MAX_APP_RESPONSE && HeadersOk(answer.headers)
          && (call.method_ == "HEAD" ==> answer.size == 0))
  }

  lemma OnReplyIs(cfg: Config, id: uint32, call: Call, f: Frame, answer: Answer)
    ensures OnReply(cfg, id, call, f) == Taking(answer, []) <==> AnswerFor(cfg, call, f, id, answer)
  {
  }

  lemma {:induction false} RunIsDrain(cfg: Config, id: uint32, call: Call, answer: Answer, got: seq<byte>, input: seq<Frame>)
    ensures var (end, rest) := Run(cfg, id, call, Taking(answer, got), input);
            var (s, left) := Drain(cfg.rules, id, answer.size, got, input);
            rest == left && end == (match s
                                    case Receiving(g) => Taking(answer, g)
                                    case Complete(g) => Finished(answer, g)
                                    case Rejected(g, cause) => Failed(cause, g))
    decreases |input|
  {
    if input != [] {
      var t := Take(cfg.rules, id, answer.size, got, input[0]);
      if t.Receiving? {
        RunIsDrain(cfg, id, call, answer, t.got, input[1..]);
      }
    }
  }

  /** A reply on the wire that the client accepts: RESPONSE, then a body transcript of the announced size. */
  ghost predicate ReplyTranscript(cfg: Config, id: uint32, call: Call, answer: Answer, content: seq<byte>,
                                  head: Frame, datas: seq<Frame>, end: Frame) {
    && AnswerFor(cfg, call, head, id, answer)
    && |content| == answer.size && Transcript(cfg.rules.sha, id, content, datas, end)
  }

  lemma FinishedReply(cfg: Config, id: uint32, call: Call, input: seq<Frame>,
                      answer: Answer, content: seq<byte>, rest: seq<Frame>) returns (datas: seq<Frame>, end: Frame)
    requires Run(cfg, id, call, AwaitReply, input) == (Finished(answer, content), rest)
    ensures input != [] && ReplyTranscript(cfg, id, call, answer, content, input[0], datas, end)
    ensures input == [input[0]] + datas + [end] + rest
  {
    var s := OnReply(cfg, id, call, input[0]);
    assert s.Taking?;
    OnReplyIs(cfg, id, call, input[0], s.answer);
    RunIsDrain(cfg, id, call, s.answer, [], input[1..]);
    VerifiedIffTranscript(cfg.rules, id, s.answer.size, input[1..], content, rest);
    datas, end :| Transcript(cfg.rules.sha, id, content, datas, end) && input[1..] == datas + [end] + rest;
  }

  lemma ReplyFinishes(cfg: Config, id: uint32, call: Call, answer: Answer, content: seq<byte>,
                      head: Frame, datas: seq<Frame>, end: Frame, rest: seq<Frame>)
    requires ReplyTranscript(cfg, id, call, answer, content, head, datas, end)
    ensures Run(cfg, id, call, AwaitReply, [head] + datas + [end] + rest) == (Finished(answer, content), rest)
  {
    var input := [head] + datas + [end] + rest;
    OnReplyIs(cfg, id, call, head, answer);
    assert input[1..] == datas + [end] + rest;
    VerifiedIffTranscript(cfg.rules, id, answer.size, input[1..], content, rest);
    RunIsDrain(cfg, id, call, answer, [], input[1..]);
  }

  /** Against an arbitrary peer: a call finishes with that answer and content exactly when such a reply stands at
      the front of what arrives, and then reads no further. */
  lemma FinishedIffTranscript(cfg: Config, id: uint32, call: Call, input: seq<Frame>,
                              answer: Answer, content: seq<byte>, rest: seq<Frame>)
    ensures Run(cfg, id, call, AwaitReply, input) == (Finished(answer, content), rest)
       <==> exists head, datas, end ::
              && ReplyTranscript(cfg, id, call, answer, content, head, datas, end)
              && input == [head] + datas + [end] + rest
  {
    hide Run, ReplyTranscript;
    if Run(cfg, id, call, AwaitReply, input) == (Finished(answer, content), rest) {
      var datas, end := FinishedReply(cfg, id, call, input, answer, content, rest);
    }
    forall head, datas, end | ReplyTranscript(cfg, id, call, answer, content, head, datas, end)
                              && input == [head] + datas + [end] + rest
      ensures Run(cfg, id, call, AwaitReply, input) == (Finished(answer, content), rest) {
      ReplyFinishes(cfg, id, call, answer, content, head, datas, end, rest);
    }
  }

  function Got(s: State): seq<byte> { if s.AwaitReply? then [] else s.got }

  /** On every path, failing or not, the destination was handed the bodies of leading DATA frames that follow an
      accepted RESPONSE, all under the active ID, and no more than its announced size and the client's limit. */
  lemma DeliversPrefix(cfg: Config, id: uint32, call: Call, input: seq<Frame>) returns (k: nat)
    ensures var got := Got(Run(cfg, id, call, AwaitReply, input).0);
            && (got != [] ==> 1 <= k < |input|)
            && (got != [] ==>
                  && OnReply(cfg, id, call, input[0]).Taking?
                  && got == Bodies(input[1..k + 1])
                  && (forall i :: 1 <= i <= k ==> input[i] == DataFrame(id, input[i].body))
                  && |got| <= OnReply(cfg, id, call, input[0]).answer.size <= cfg.maxBytes)
  {
    k := 0;
    if input != [] {
      var s := OnReply(cfg, id, call, input[0]);
      if s.Taking? {
        OnReplyIs(cfg, id, call, input[0], s.answer);
        RunIsDrain(cfg, id, call, s.answer, [], input[1..]);
        k := DrainDelivers(cfg.rules, id, s.answer.size, [], input[1..]);
        assert input[1..][..k] == input[1..k + 1];
        assert forall i :: 1 <= i <= k ==> input[i] == input[1..][i - 1];
      }
    }
  }

  /** How Fetch or Exchange returns: the verified answer and digest, or the reason nothing or not all was done. */
  datatype Outcome = Done(answer: Answer, sha256: string) | WrongAuthority | Invalid | Busy | Closed | Exhausted
                   | Failure(cause: Cause)

  /** The frame that lets an exchange go on: CONTINUE under the ID for app/1 with uploads up to 1 MiB. */
  predicate Continues(f: Frame, id: uint32) {
    f.kind == Continue && f.id == id && f.meta == Ready("app/1", 0x10_0000)
  }

  /** Only that frame is accepted; a reportable ERROR is passed on, anything else is a protocol error. */
  lemma OnContinueIs(cfg: Config, id: uint32, f: Frame)
    ensures OnContinue(cfg, id, f) == if Continues(f, id) then None
                                      else Some(if Reports(cfg.rules, id, f) then Remote(f.meta.error) else Protocol)
  {
  }

  predicate FinishesWith(t: Talk, answer: Answer, content: seq<byte>, rest: seq<Frame>) {
    t.end == Finished(answer, content) && t.rest == rest
  }

  /** A whole call against whatever arrives: it finishes with that answer and content, and leaves that, exactly when
      its metadata can be written and the stream starts with the reply, after a CONTINUE for an exchange. */
  lemma ConverseFinishes(cfg: Config, ending: Cause, id: uint32, call: Call, input: seq<Frame>,
                         answer: Answer, content: seq<byte>, rest: seq<Frame>)
    ensures FinishesWith(Converse(cfg, ending, id, call, input), answer, content, rest)
       <==> && !cfg.oversize(Target(cfg.authority, call.path, call.query, if call.Fetch? then "FETCH" else "EXCHANGE"))
            && (call.Exchange? ==> !cfg.oversize(Submit(call.method_, call.headers, |call.body|)))
            && (call.Exchange? ==> input != [] && Continues(input[0], id))
            && exists head, datas, end ::
                 && ReplyTranscript(cfg, id, call, answer, content, head, datas, end)
                 && (if call.Exchange? then input[1..] else input) == [head] + datas + [end] + rest
  {
    hide Run, ReplyTranscript, UploadFrames;
    if call.Fetch? {
      FinishedIffTranscript(cfg, id, call, input, answer, content, rest);
    } else if input != [] {
      OnContinueIs(cfg, id, input[0]);
      FinishedIffTranscript(cfg, id, call, input[1..], answer, content, rest);
    }
  }

  /** A RESPONSE to FETCH that announces more than the client takes. */
  predicate TooLarge(cfg: Config, id: uint32, call: Call, f: Frame) {
    && call.Fetch? && f.kind == Kind.Response && f.id == id && f.meta.Described? && ValidMediaType(f.meta.mediaType)
    && f.meta.size >= 0 && cfg.maxBytes < f.meta.size <= MAX_RESOURCE
  }

  /** What a frame that does not fit is taken for, first or later in a reply. */
  function Blame(cfg: Config, id: uint32, call: Call, first: bool, f: Frame): Cause {
    if Reports(cfg.rules, id, f) then Remote(f.meta.error)
    else if first && TooLarge(cfg, id, call, f) then Internal
    else Protocol
  }

  /** Why a call that waits for its reply did not finish: the stream ended, or the last frame read tells. A reportable
      ERROR under the ID, at the RESPONSE or among the DATA, is passed on; a FETCH body over the client's limit is
      refused locally; every other frame that does not fit is a protocol error. */
  lemma WhyFailed(cfg: Config, id: uint32, call: Call, input: seq<Frame>) returns (n: nat)
    requires !Run(cfg, id, call, AwaitReply, input).0.Finished?
    ensures var (end, rest) := Run(cfg, id, call, AwaitReply, input);
            && n <= |input| && rest == input[n..]
            && (Waiting(end) ==> n == |input|)
            && (end.Failed? ==> n > 0 && end.cause == Blame(cfg, id, call, n == 1, input[n - 1]))
    ensures n > 1 ==> exists answer :: AnswerFor(cfg, call, input[0], id, answer)
    ensures forall i :: 1 <= i < n - 1 ==> input[i] == DataFrame(id, input[i].body)
  {
    n := 0;
    if input != [] {
      n := 1;
      var s := OnReply(cfg, id, call, input[0]);
      if s.Taking? {
        OnReplyIs(cfg, id, call, input[0], s.answer);
        RunIsDrain(cfg, id, call, s.answer, [], input[1..]);
        var k := DrainRefuses(cfg.rules, id, s.answer.size, [], input[1..]);
        n := k + 1;
        assert input[1..][k..] == input[n..];
        assert forall i :: 1 <= i < |input| ==> input[i] == input[1..][i - 1];
      }
    }
  }

  /** What the caller is told once the frames are out. */
  function Told(cfg: Config, ending: Cause, end: State, destRoom: nat, late: bool): Outcome {
    if |Got(end)| > destRoom then Failure(Internal)
    else if end.Failed? then Failure(end.cause)
    else if !end.Finished? then Failure(ending)
    else if late then Failure(Internal)
    else Done(end.answer, cfg.rules.sha(end.got))
  }

  /** The result of a call: a write or a destination that fails and a context that ends are local failures, and
      otherwise it is a verified answer or the reason the conversation failed. */
  function Result(cfg: Config, ending: Cause, t: Talk, room: nat, destRoom: nat, late: bool): Outcome {
    if |t.frames| > room then Failure(Internal) else Told(cfg, ending, t.end, destRoom, late)
  }

  class Session {
    const cfg: Config
    const conn: Conn
    var nextID: uint32
    var locked: bool
    var closed: bool

    /** A session as Dial leaves it. */
    constructor (cfg: Config, conn: Conn)
      ensures this.cfg == cfg && this.conn == conn
      ensures nextID == 1 && !locked && !closed
    {
      this.cfg, this.conn := cfg, conn;
      nextID, locked, closed := 1, false, false;
    }

    /** The local checks a call must pass before it may touch the stream; expired tells of a context already over. */
    ghost function Refusal(authority: string, call: Call, expired: bool): Option<Outcome>
      reads this
    {
      if !CallOk(call) then Some(Invalid)
      else if authority != cfg.authority then Some(WrongAuthority)
      else if locked then Some(Busy)
      else if closed then Some(Closed)
      else if expired then Some(Failure(Internal))
      else if nextID == 0 then Some(Exhausted)
      else None
    }

    method Shut()
      modifies this`closed, conn`input, conn`room
      ensures closed && conn.input == [] && conn.room == 0
    {
      closed := true;
      conn.input, conn.room := [], 0;
    }

    /** The receive loop of Fetch: written apart from ReceiveBody, with the same effect. */
    method ReceiveResource(id: uint32, size: nat, dest: Sink, late: bool) returns (digest: string, err: Option<Cause>)
      modifies conn`input, dest
      ensures var (s, rest) := Drain(cfg.rules, id, size, [], old(conn.input));
              && dest.data == old(dest.data) + Fitting(s.got, old(dest.room))
              && (|s.got| <= old(dest.room) ==>
                    && conn.input == rest
                    && err == (match s
                               case Receiving(_) => Some(conn.ending)
                               case Complete(_) => if late then Some(Internal) else None
                               case Rejected(_, cause) => Some(cause)))
              && (|s.got| > old(dest.room) ==> err == Some(Internal))
              && (err == None ==> digest == cfg.rules.sha(s.got))
    {
      ghost var outcome := Drain(cfg.rules, id, size, [], conn.input);
      ghost var got: seq<byte> := [];
      var hashed: seq<byte> := [];
      var received := 0;
      digest := "";
      while true
        invariant received == |got| && hashed == got
        invariant dest.data == old(dest.data) + got && dest.room == old(dest.room) - |got|
        invariant got <= outcome.0.got
        invariant Drain(cfg.rules, id, size, got, conn.input) == outcome && conn.ending == old(conn.ending)
        decreases |conn.input|
      {
        var frame := conn.Read();
        if frame == None {
          return digest, Some(conn.ending);
        }
        var f := frame.value;
        if f.id != id {
          return digest, Some(Protocol);
        }
        match f.kind
        case Data =>
          if f.meta != Empty || |f.body| > size - received {
            return digest, Some(Protocol);
          }
          DrainGrows(cfg.rules, id, size, got + f.body, conn.input);
          var ok := dest.WriteAll(f.body);
          if !ok {
            FittingInside(got, f.body, outcome.0.got, old(dest.room));
            return digest, Some(Internal);
          }
          hashed := hashed + f.body;
          received := received + |f.body|;
          got := got + f.body;
        case End =>
          if !f.meta.Ending? {
            return digest, Some(Protocol);
          }
          digest := cfg.rules.sha(hashed);
          if received != size || f.meta.size != received || f.meta.sha256 != digest {
            return digest, Some(Protocol);
          }
          return digest, if late then Some(Internal) else None;
        case Error =>
          return digest, Expect(cfg.rules.reportable, f, End, id);
        case _ =>
          return digest, Some(Protocol);
      }
    }

    /** The exchange of frames of one FETCH after its REQUEST went out. */
    method FetchReply(id: uint32, call: Call, dest: Sink, late: bool) returns (r: Outcome)
      requires call.Fetch?
      modifies conn`input, dest
      ensures var (end, rest) := Run(cfg, id, call, AwaitReply, old(conn.input));
              && dest.data == old(dest.data) + Fitting(Got(end), old(dest.room))
              && r == Told(cfg, old(conn.ending), end, old(dest.room), late)
              && (r.Done? ==> conn.input == rest)
    {
      ghost var (end, rest) := Run(cfg, id, call, AwaitReply, conn.input);
      var frame := conn.Read();
      if frame == None {
        return Failure(conn.ending);
      }
      var f := frame.value;
      var refusal := Expect(cfg.rules.reportable, f, Kind.Response, id);
      if refusal.Some? {
        return Failure(refusal.value);
      }
      if !f.meta.Described? {
        return Failure(Protocol);
      }
      if !ValidMediaType(f.meta.mediaType) || f.meta.size < 0 || f.meta.size > MAX_RESOURCE {
        return Failure(Protocol);
      }
      if f.meta.size > cfg.maxBytes {
        return Failure(Internal);
      }
      var answer := Stored(f.meta.mediaType, f.meta.size);
      RunIsDrain(cfg, id, call, answer, [], conn.input);
      var digest, err := ReceiveResource(id, f.meta.size, dest, late);
      r := if err == None then Done(answer, digest) else Failure(err.value);
    }

    /** What the frames of one call did to the stream and the destination, in terms of Converse. */
    twostate predicate Talked(id: uint32, call: Call, dest: Sink, late: bool, r: Outcome)
      reads this, conn, dest
    {
      var room, destRoom := old(conn.room), old(dest.room);
      var t := Converse(cfg, old(conn.ending), id, call, old(conn.input));
      && conn.output == old(conn.output) + Fitting(t.frames, room)
      && dest.data == old(dest.data) + (if |t.frames| <= room then Fitting(Got(t.end), destRoom) else [])
      && r == Result(cfg, old(conn.ending), t, room, destRoom, late)
    }

    /** The stream after a call: what Converse left on success, shut otherwise. */
    twostate predicate Settled(id: uint32, call: Call, r: Outcome)
      reads this, conn
    {
      var t := Converse(cfg, old(conn.ending), id, call, old(conn.input));
      if r.Done? then !closed && conn.input == t.rest && conn.room == old(conn.room) - |t.frames|
      else closed && conn.input == [] && conn.room == 0
    }

    /** What a call that got past its local checks did. */
    twostate predicate Conversed(call: Call, dest: Sink, late: bool, r: Outcome)
      reads this, conn, dest
    {
      && nextID == (old(nextID) + 1) % 0x1_0000_0000 && !locked
      && Talked(old(nextID), call, dest, late, r) && Settled(old(nextID), call, r)
    }

    method FetchFrames(id: uint32, call: Call, dest: Sink, late: bool) returns (r: Outcome)
      requires call.Fetch?
      modifies conn, dest
      ensures conn.ending == old(conn.ending)
      ensures Talked(id, call, dest, late, r)
      ensures r.Done? ==> var t := Converse(cfg, old(conn.ending), id, call, old(conn.input));
                          conn.input == t.rest && conn.room == old(conn.room) - |t.frames|
    {
      var request := RequestFrame(cfg, id, call);
      if cfg.oversize(request.meta) {
        return Failure(Protocol);
      }
      var sent := conn.Send(request);
      if !sent {
        return Failure(Internal);
      }
      r := FetchReply(id, call, dest, late);
    }

    /** Fetch: what goes out, what the destination gets and what is left are those of Converse; success means a
        verified reply, and every failure after the REQUEST ends the session. */
    method Fetch(authority: string, call: Call, dest: Sink, expired: bool, late: bool) returns (r: Outcome)
      requires call.Fetch?
      modifies this, conn, dest
      ensures old(Refusal(authority, call, expired)).Some? ==>
                r == old(Refusal(authority, call, expired)).value
                && unchanged(this) && unchanged(conn) && unchanged(dest)
      ensures old(Refusal(authority, call, expired)).None? ==> Conversed(call, dest, late, r)
    {
      if authority != cfg.authority {
        return WrongAuthority;
      }
      if locked {
        return Busy;
      }
      if closed {
        return Closed;
      }
      if expired {
        return Failure(Internal);
      }
      if nextID == 0 {
        return Exhausted;
      }
      locked := true;
      var id := nextID;
      nextID := (nextID + 1) % 0x1_0000_0000;
      r := FetchFrames(id, call, dest, late);
      if !r.Done? {
        Shut();
      }
      locked := false;
    }

    /** The second half of Exchange: RESPONSE and body. */
    method ExchangeReply(id: uint32, call: Call, dest: Sink, late: bool) returns (r: Outcome)
      requires call.Exchange?
      modifies conn`input, dest
      ensures var (end, rest) := Run(cfg, id, call, AwaitReply, old(conn.input));
              && dest.data == old(dest.data) + Fitting(Got(end), old(dest.room))
              && r == Told(cfg, old(conn.ending), end, old(dest.room), late)
              && (r.Done? ==> conn.input == rest)
    {
      var frame := conn.Read();
      if frame == None {
        return Failure(conn.ending);
      }
      var f := frame.value;
      var refusal := Expect(cfg.rules.reportable, f, Kind.Response, id);
      if refusal.Some? {
        return Failure(refusal.value);
      }
      if !f.meta.Reply? {
        return Failure(Protocol);
      }
      if f.meta.status < 200 || f.meta.status > 599 || !ValidMediaType(f.meta.mediaType)
         || f.meta.size < 0 || f.meta.size > Min(cfg.maxBytes, MAX_APP_RESPONSE) {
        return Failure(Protocol);
      }
      if call.method_ == "HEAD" && f.meta.size != 0 {
        return Failure(Protocol);
      }
      var headersOk := ValidateHeaders(f.meta.headers);
      if !headersOk {
        return Failure(Protocol);
      }
      var answer := Application(f.meta.status, f.meta.headers, f.meta.mediaType, f.meta.size);
      RunIsDrain(cfg, id, call, answer, [], conn.input);
      var digest, err := ReceiveBody(conn, cfg.rules, id, f.meta.size, dest, late);
      r := if err == None then Done(answer, digest) else Failure(err.value);
    }

    method AwaitContinue(id: uint32) returns (err: Option<Cause>)
      modifies conn`input
      ensures var input := old(conn.input);
              if input == [] then err == Some(conn.ending) && conn.input == []
              else err == OnContinue(cfg, id, input[0]) && conn.input == input[1..]
    {
      var frame := conn.Read();
      if frame == None {
        return Some(conn.ending);
      }
      var f := frame.value;
      var refusal := Expect(cfg.rules.reportable, f, Continue, id);
      if refusal.Some? {
        return refusal;
      }
      if !f.meta.Ready? {
        return Some(Protocol);
      }
      if f.meta.profile != PROFILE || f.meta.maxBody != MAX_APP_REQUEST {
        return Some(Protocol);
      }
      err := None;
    }

    /** The second REQUEST and the upload. */
    method Upload(id: uint32, call: Call) returns (err: Option<Cause>)
      requires call.Exchange?
      modifies conn`output, conn`room
      ensures conn.Sent(old(conn.output), old(conn.room), UploadFrames(cfg, id, call))
      ensures err == if |UploadFrames(cfg, id, call)| <= old(conn.room) then None else Some(Internal)
    {
      var submit := SubmitFrame(id, call);
      ghost var upload := BodyFrames(cfg.rules.sha, id, call.body);
      assert UploadFrames(cfg, id, call) == [submit] + upload;
      ExactSends(cfg.rules.sha, id, call.body);
      FittingAppend([submit], upload, conn.room);
      hide SenderFrames, BodyFrames, DataFrames, UploadFrames, SubmitFrame;
      var sent := conn.Send(submit);
      if !sent {
        return Some(Internal);
      }
      var body := new Source(Content(call.body, true, None));
      err := SendBody(conn, cfg.rules.sha, id, body, |call.body|);
    }

    method ExchangeFrames(id: uint32, call: Call, dest: Sink, late: bool) returns (r: Outcome)
      requires call.Exchange? && CallOk(call)
      modifies conn, dest
      ensures conn.ending == old(conn.ending)
      ensures Talked(id, call, dest, late, r)
      ensures r.Done? ==> var t := Converse(cfg, old(conn.ending), id, call, old(conn.input));
                          conn.input == t.rest && conn.room == old(conn.room) - |t.frames|
    {
      hide UploadFrames, SubmitFrame, RequestFrame, Run, OnContinue, HeadersOk;
      var request := RequestFrame(cfg, id, call);
      FittingOne(request, conn.room);
      FittingAppend([request], UploadFrames(cfg, id, call), conn.room);
      if cfg.oversize(request.meta) {
        return Failure(Protocol);
      }
      var sent := conn.Send(request);
      if !sent {
        return Failure(Internal);
      }
      var err := AwaitContinue(id);
      if err.Some? {
        return Failure(err.value);
      }
      var submit := SubmitFrame(id, call);
      if cfg.oversize(submit.meta) {
        return Failure(Protocol);
      }
      err := Upload(id, call);
      if err.Some? {
        return Failure(err.value);
      }
      r := ExchangeReply(id, call, dest, late);
    }

    /** Exchange: as Fetch, with the upload between CONTINUE and RESPONSE. */
    method Exchange(authority: string, call: Call, dest: Sink, expired: bool, late: bool) returns (r: Outcome)
      requires call.Exchange?
      modifies this, conn, dest
      ensures old(Refusal(authority, call, expired)).Some? ==>
                r == old(Refusal(authority, call, expired)).value
                && unchanged(this) && unchanged(conn) && unchanged(dest)
      ensures old(Refusal(authority, call, expired)).None? ==> Conversed(call, dest, late, r)
    {
      if !ValidMethod(call.method_) || |call.body| > MAX_APP_REQUEST {
        return Invalid;
      }
      var headersOk := ValidateHeaders(call.headers);
      if !headersOk {
        return Invalid;
      }
      if Bodiless(call.method_) && |call.body| != 0 {
        return Invalid;
      }
      if authority != cfg.authority {
        return WrongAuthority;
      }
      if locked {
        return Busy;
      }
      if closed {
        return Closed;
      }
      if expired {
        return Failure(Internal);
      }
      if nextID == 0 {
        return Exhausted;
      }
      hide Converse, Result, Got, HeadersOk;
      locked := true;
      var id := nextID;
      nextID := (nextID + 1) % 0x1_0000_0000;
      r := ExchangeFrames(id, call, dest, late);
      if !r.Done? {
        Shut();
      }
      locked := false;
    }

    /** Close: at most one CLOSE ever goes out, and only while no call holds the session. */
    method Close()
      modifies this`closed, conn
      ensures closed
      ensures old(closed) ==> unchanged(conn)
      ensures !old(closed) ==>
                && conn.input == [] && conn.room == 0
                && conn.output == old(conn.output)
                     + if locked then [] else Fitting([Frame(Kind.Close, 0, Empty, [])], old(conn.room))
    {
      if closed {
        return;
      }
      closed := true;
      if !locked {
        var _ := conn.Send(Frame(Kind.Close, 0, Empty, []));
      }
      Shut();
    }
  }

  /** The local checks: a call gets past them exactly when it is well-formed, meant for this authority, and finds the
      session free, open, in time and with IDs left; the first check that fails gives the outcome. */
  lemma RefusalIs(s: Session, authority: string, call: Call, expired: bool)
    ensures var r, here := s.Refusal(authority, call, expired), CallOk(call) && authority == s.cfg.authority;
            && (r == None <==> here && !s.locked && !s.closed && !expired && s.nextID != 0)
            && (r == Some(Invalid) <==> !CallOk(call))
            && (r == Some(WrongAuthority) <==> CallOk(call) && authority != s.cfg.authority)
            && (r == Some(Busy) <==> here && s.locked)
            && (r == Some(Closed) <==> here && !s.locked && s.closed)
            && (r == Some(Failure(Internal)) <==> here && !s.locked && !s.closed && expired)
            && (r == Some(Exhausted) <==> here && !s.locked && !s.closed && !expired && s.nextID == 0)
  {
  }

  const HELLO := Frame(Hello, 0, Versions([VERSION]), [])

  predicate WelcomeOk(r: Rules, f: Frame) {
    Expect(r.reportable, f, Welcome, 0) == None && f.meta == Chosen(VERSION, MAX_CHUNK)
  }

  /** Dial once the transport is up: one HELLO, and a session exactly when a fitting WELCOME answers it. */
  method Dial(cfg: Config, conn: Conn) returns (session: Option<Session>)
    modifies conn`input, conn`output, conn`room
    ensures conn.Sent(old(conn.output), old(conn.room), [HELLO])
    ensures session.Some? <==> && old(conn.room) > 0 && old(conn.input) != []
                               && var f := old(conn.input)[0]; f.kind == Welcome && f.id == 0 && f.meta == Chosen(2, 65536)
    ensures session.Some? ==>
      var s := session.value;
      && fresh(s) && s.cfg == cfg && s.conn == conn && s.nextID == 1 && !s.locked && !s.closed
      && conn.input == old(conn.input)[1..]
  {
    FittingOne(HELLO, conn.room);
    var sent := conn.Send(HELLO);
    if !sent {
      return None;
    }
    var frame := conn.Read();
    if frame == None {
      return None;
    }
    var refusal := Expect(cfg.rules.reportable, frame.value, Welcome, 0);
    if refusal.Some? || !frame.value.meta.Chosen? {
      return None;
    }
    if frame.value.meta.version != VERSION || frame.value.meta.maxChunk != MAX_CHUNK {
      return None;
    }
    var s := new Session(cfg, conn);
    session := Some(s);
  }
}
