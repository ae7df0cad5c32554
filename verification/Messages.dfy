/** DEEP V2 messages with decoded metadata, and the checks both ends share (protocol.go, application.go). */
module Messages {
  import opened Bytes

  const MAX_CHUNK := 65536
  const MAX_RESOURCE := 0x100_0000_0000
  const MAX_APP_REQUEST := 0x10_0000
  const MAX_APP_RESPONSE := 0x100_0000
  const VERSION := 2
  const PROFILE := "app/1"

  /** SHA-256 in lower-case hexadecimal, left uninterpreted. */
  type Hash = seq<byte> -> string

  datatype Header = Header(name: string, value: string)
  datatype RemoteError = RemoteError(code: string, message: string)

  datatype Kind = Hello | Welcome | Request | Response | Data | End | Error | Close | Continue

  /** Metadata as DecodeMetadata sees it: the schema it fits, or Other when it fits none. */
  datatype Meta =
    | Empty
    | Versions(versions: seq<int>)
    | Chosen(version: int, maxChunk: int)
    | Target(authority: string, path: string, query: string, operation: string)
    | Submit(method_: string, headers: seq<Header>, size: int)
    | Ready(profile: string, maxBody: int)
    | Described(mediaType: string, size: int)
    | Reply(status: int, headers: seq<Header>, mediaType: string, size: int)
    | Ending(size: int, sha256: string)
    | Report(error: RemoteError)
    | Other

  datatype Frame = Frame(kind: Kind, id: uint32, meta: Meta, body: seq<byte>)

  /** Why a step failed: an ErrProtocol error, a RemoteError, or anything else. */
  datatype Cause = Protocol | Remote(error: RemoteError) | Internal

  predicate PrintableAscii(s: string) {
    forall i :: 0 <= i < |s| ==> 32 as char <= s[i] <= 126 as char
  }

  predicate ValidMediaType(s: string) {
    1 <= |s| <= 255 && PrintableAscii(s)
  }

  predicate ValidMethod(m: string) {
    m in {"GET", "HEAD", "POST", "PUT", "PATCH", "DELETE", "OPTIONS"}
  }

  predicate Bodiless(m: string) { m == "GET" || m == "HEAD" }

  predicate TokenChars(s: string) {
    forall i :: 0 <= i < |s| ==>
      'a' <= s[i] <= 'z' || '0' <= s[i] <= '9' || s[i] in "!#$%&'*+-.^_`|~"
  }

  predicate HeaderOk(h: Header) {
    1 <= |h.name| <= 64 && |h.value| <= 4096 && TokenChars(h.name) && PrintableAscii(h.value)
  }

  function HeaderBytes(hs: seq<Header>): nat {
    if hs == [] then 0 else HeaderBytes(hs[..|hs| - 1]) + |hs[|hs| - 1].name| + |hs[|hs| - 1].value|
  }

  /** Names and values of all headers count, each once. */
  lemma {:induction false} HeaderBytesAdd(a: seq<Header>, b: seq<Header>)
    ensures HeaderBytes(a + b) == HeaderBytes(a) + HeaderBytes(b)
    ensures forall h: Header :: HeaderBytes([h]) == |h.name| + |h.value|
    decreases |b|
  {
    if b == [] {
      assert a + b == a;
    } else {
      assert (a + b)[..|a + b| - 1] == a + b[..|b| - 1];
      HeaderBytesAdd(a, b[..|b| - 1]);
    }
    forall h: Header ensures HeaderBytes([h]) == |h.name| + |h.value| {
      assert [h][..0] == [];
    }
  }

  /** At most 64 well-formed headers of at most 6144 bytes together. */
  predicate HeadersOk(hs: seq<Header>) {
    |hs| <= 64 && (forall i :: 0 <= i < |hs| ==> HeaderOk(hs[i])) && HeaderBytes(hs) <= 6144
  }

  method ValidateHeaders(headers: seq<Header>) returns (ok: bool)
    ensures ok <==> HeadersOk(headers)
  {
    if |headers| > 64 {
      return false;
    }
    var total := 0;
    for k := 0 to |headers|
      invariant forall i :: 0 <= i < k ==> HeaderOk(headers[i])
      invariant total == HeaderBytes(headers[..k])
    {
      var h := headers[k];
      assert headers[..k + 1][..k] == headers[..k];
      if |h.name| == 0 || |h.name| > 64 || |h.value| > 4096 {
        return false;
      }
      if !TokenChars(h.name) || !PrintableAscii(h.value) {
        return false;
      }
      total := total + |h.name| + |h.value|;
    }
    assert headers[..|headers|] == headers;
    ok := total <= 6144;
  }

  /** expect: the frame carries the awaited type and ID, or the cause it is refused with.
      reportable stands for ValidateRemoteError. */
  function Expect(reportable: RemoteError -> bool, f: Frame, kind: Kind, id: uint32): Option<Cause> {
    if f.id != id then Some(Protocol)
    else if f.kind == Error then
      if !f.meta.Report? then Some(Protocol)
      else if !reportable(f.meta.error) then Some(Protocol)
      else Some(Remote(f.meta.error))
    else if f.kind != kind then Some(Protocol)
    else None
  }

  function DataFrame(id: uint32, body: seq<byte>): Frame { Frame(Data, id, Empty, body) }

  function EndFrame(sha: Hash, id: uint32, body: seq<byte>): Frame { Frame(End, id, Ending(|body|, sha(body)), []) }

  /** sendError: what the peer is told. */
  function ErrorFrame(reportable: RemoteError -> bool, id: uint32, cause: Cause): Frame {
    Frame(Error, id, Report(
      if cause.Remote? && reportable(cause.error) then cause.error
      else if cause.Protocol? then RemoteError("PROTOCOL_ERROR", "invalid DEEP message")
      else RemoteError("INTERNAL_ERROR", "resource provider failed")), [])
  }

  /** The reason a peer reads out of an ERROR is the remote error it was sent, if that may be reported, and otherwise
      one of two fixed ones that tell nothing of the cause. */
  lemma ErrorTravels(reportable: RemoteError -> bool, id: uint32, cause: Cause, kind: Kind) returns (told: RemoteError)
    requires reportable(RemoteError("PROTOCOL_ERROR", "invalid DEEP message"))
    requires reportable(RemoteError("INTERNAL_ERROR", "resource provider failed"))
    ensures Expect(reportable, ErrorFrame(reportable, id, cause), kind, id) == Some(Remote(told))
    ensures cause.Remote? && reportable(cause.error) ==> told == cause.error
    ensures !(cause.Remote? && reportable(cause.error)) ==>
              told.code == if cause.Protocol? then "PROTOCOL_ERROR" else "INTERNAL_ERROR"
  {
    told := ErrorFrame(reportable, id, cause).meta.error;
  }

  /** The body size rules every frame that ReadFrame returns obeys (validateHeader). */
  predicate BodyRule(f: Frame) {
    if f.kind == Data then 1 <= |f.body| <= MAX_CHUNK else f.body == []
  }

  /** A frame stream: the frames that still arrive before it ends, how it ends, and how many frames it still takes.
      End of file, a reset, a deadline and a cancelled context all show as input or room running out. */
  class Conn {
    var input: seq<Frame>
    var ending: Cause
    var output: seq<Frame>
    var room: nat

    constructor (input: seq<Frame>, ending: Cause, room: nat)
      ensures this.input == input && this.ending == ending && this.room == room && output == []
    {
      this.input, this.ending, this.room, this.output := input, ending, room, [];
    }

    method Read() returns (f: Option<Frame>)
      modifies this`input
      ensures old(input) == [] ==> f == None && input == []
      ensures old(input) != [] ==> f == Some(old(input)[0]) && input == old(input)[1..]
    {
      if input == [] {
        return None;
      }
      f := Some(input[0]);
      input := input[1..];
    }

    method Send(f: Frame) returns (ok: bool)
      modifies this`output, this`room
      ensures ok <==> old(room) > 0
      ensures ok ==> room == old(room) - 1
      ensures !ok ==> room == 0
      ensures Sent(old(output), old(room), [f])
    {
      ok := room > 0;
      if ok {
        output := output + [f];
        room := room - 1;
      }
    }

    /** Since a moment with that output and room, the stream was given frames and took those it had room for. */
    ghost predicate Sent(before: seq<Frame>, had: nat, frames: seq<Frame>)
      reads this
    {
      Took(output, room, before, had, frames)
    }
  }

  /** A stream with that output and room was given frames and took those it had room for. */
  ghost predicate Took<T>(output: seq<T>, room: int, before: seq<T>, had: nat, frames: seq<T>) {
    && output == before + Fitting(frames, had)
    && room == had - |Fitting(frames, had)|
  }

  lemma TookThen<T>(output: seq<T>, room: nat, middle: seq<T>, left: nat, before: seq<T>, had: nat,
                    first: seq<T>, second: seq<T>)
    requires Took(middle, left, before, had, first) && Took(output, room, middle, left, second)
    ensures Took(output, room, before, had, first + second)
  {
    FittingAppend(first, second, had);
  }

  /** A full stream has already taken all it will. */
  lemma TookFull<T>(output: seq<T>, before: seq<T>, had: nat, first: seq<T>, second: seq<T>)
    requires Took(output, 0, before, had, first)
    ensures Took(output, 0, before, had, first + second)
  {
    FittingAppend(first, second, had);
  }

  lemma TookNothing<T>(output: seq<T>, room: nat)
    ensures Took(output, room, output, room, [])
  {
  }

  lemma TookFits<T>(output: seq<T>, room: int, before: seq<T>, had: nat, frames: seq<T>)
    requires Took(output, room, before, had, frames)
    ensures 0 <= room
    ensures |frames| <= had <==> room == had - |frames|
    ensures |frames| > had ==> room == 0
  {
  }

  function Fitting<T>(frames: seq<T>, room: nat): (taken: seq<T>)
    ensures taken <= frames
  {
    if |frames| <= room then frames else frames[..room]
  }

  lemma FittingAppend<T>(a: seq<T>, b: seq<T>, room: nat)
    ensures Fitting(a + b, room) == Fitting(a, room) + Fitting(b, room - |Fitting(a, room)|)
  {
  }

  lemma FittingOne<T>(f: T, room: nat)
    ensures Fitting([f], room) == if room > 0 then [f] else []
  {
  }

  /** expect passes exactly the awaited frame; a reportable ERROR under the ID is handed on, and anything else is a
      protocol error. */
  lemma ExpectIs(reportable: RemoteError -> bool, f: Frame, kind: Kind, id: uint32)
    requires kind != Error
    ensures Expect(reportable, f, kind, id) ==
            if f.id == id && f.kind == kind then None
            else if f.id == id && f.kind == Error && f.meta.Report? && reportable(f.meta.error) then Some(Remote(f.meta.error))
            else Some(Protocol)
  {
  }
}
