/** Body transfer: the sender loop of application.go, the receiver loop, and what they mean to each other. */
module Body {
  import opened Bytes
  import opened Messages

  function Min(a: int, b: int): int { if a < b then a else b }

  /** The DATA frames of a payload: full chunks, then what is left. */
  function DataFrames(id: uint32, payload: seq<byte>): (fs: seq<Frame>)
    decreases |payload|
  {
    if payload == [] then []
    else
      var n := Min(MAX_CHUNK, |payload|);
      [DataFrame(id, payload[..n])] + DataFrames(id, payload[n..])
  }

  /** A whole body on the wire. */
  function BodyFrames(sha: Hash, id: uint32, payload: seq<byte>): seq<Frame> {
    DataFrames(id, payload) + [EndFrame(sha, id, payload)]
  }

  function Bodies(fs: seq<Frame>): seq<byte> {
    if fs == [] then [] else fs[0].body + Bodies(fs[1..])
  }

  /** Chunking: ceil(size / 65536) frames, each legal, that concatenate to the payload. */
  lemma {:induction false} ChunkingIsExact(id: uint32, payload: seq<byte>)
    ensures |DataFrames(id, payload)| == (|payload| + 65535) / 65536
    ensures Bodies(DataFrames(id, payload)) == payload
    ensures forall i :: 0 <= i < |DataFrames(id, payload)| ==>
              var f := DataFrames(id, payload)[i]; BodyRule(f) && f == DataFrame(id, f.body)
    decreases |payload|
  {
    if payload != [] {
      var n := Min(MAX_CHUNK, |payload|);
      ChunkingIsExact(id, payload[n..]);
      assert payload == payload[..n] + payload[n..];
    }
  }

  /** What a sender meets: the reader's bytes, whether it then reports end of file, and the number of the chunk before
      which the transfer's context ends, if it does. */
  datatype Content = Content(data: seq<byte>, clean: bool, lapse: Option<nat>)

  /** A reader positioned in its content. */
  class Source {
    var rest: seq<byte>
    const clean: bool
    const lapse: Option<nat>

    constructor (c: Content)
      ensures Holds() == c
    {
      rest, clean, lapse := c.data, c.clean, c.lapse;
    }

    function Holds(): Content
      reads this
    {
      Content(rest, clean, lapse)
    }

    /** ctx.Err() before the next chunk, with that many bytes out. */
    predicate Expired(total: nat) { lapse == Some(total / MAX_CHUNK) }

    /** io.ReadFull of n bytes. */
    method ReadFull(n: nat) returns (got: Option<seq<byte>>)
      modifies this`rest
      ensures n <= |old(rest)| ==> got == Some(old(rest)[..n]) && rest == old(rest)[n..]
      ensures n > |old(rest)| ==> got == None && rest == []
    {
      if n <= |rest| {
        got := Some(rest[..n]);
        rest := rest[n..];
      } else {
        got := None;
        rest := [];
      }
    }

    /** A one-byte io.ReadFull that meets end of file at once. */
    method AtEnd() returns (ended: bool)
      modifies this`rest
      ensures ended <==> old(rest) == [] && clean
    {
      ended := rest == [] && clean;
      rest := if rest == [] then [] else rest[1..];
    }
  }

  /** The context ends before a chunk that would still have gone out. */
  predicate Lapses(c: Content, size: int) {
    c.lapse.Some? && c.lapse.value * MAX_CHUNK < size && c.lapse.value * MAX_CHUNK <= |c.data|
  }

  /** The reader yields exactly the announced number of bytes and then ends, in time. */
  predicate Exact(c: Content, size: int) { c.clean && |c.data| == size && !Lapses(c, size) }

  /** How many bytes go out before a sender notices a body of the wrong length or the end of its context. */
  function SentBytes(c: Content, size: nat): (k: nat)
    ensures k <= |c.data| && k <= size
  {
    if Lapses(c, size) then c.lapse.value * MAX_CHUNK
    else if |c.data| >= size then size else |c.data| / MAX_CHUNK * MAX_CHUNK
  }

  /** Where a sender stops: at the chunk before which its context ends, else at the announced size if the reader holds
      that much, else after the last whole chunk the reader can fill. */
  lemma StopsWhere(c: Content, size: nat)
    ensures var k := SentBytes(c, size);
            if c.lapse.Some? && c.lapse.value * 65536 < size && c.lapse.value * 65536 <= |c.data| then k == c.lapse.value * 65536
            else if |c.data| >= size then k == size
            else k % 65536 == 0 && k <= |c.data| < k + 65536
    ensures Fault(c, size) == if c.lapse.Some? && c.lapse.value * 65536 < size && c.lapse.value * 65536 <= |c.data| then Internal
                              else Remote(RemoteError("RESOURCE_CHANGED", "resource size changed during transfer"))
  {
  }

  /** Why a sender gives up on a body that is not exact. */
  function Fault(c: Content, size: int): Cause {
    if Lapses(c, size) then Internal else CHANGED
  }

  /** The frames a sender emits for a body announced with that size. */
  function SenderFrames(sha: Hash, id: uint32, c: Content, size: nat): seq<Frame> {
    if Exact(c, size) then BodyFrames(sha, id, c.data) else DataFrames(id, c.data[..SentBytes(c, size)])
  }

  const CHANGED := Remote(RemoteError("RESOURCE_CHANGED", "resource size changed during transfer"))

  /** The DATA frames still to come once the first total bytes are out. */
  function Left(id: uint32, c: Content, size: nat, total: nat): seq<Frame>
    requires total <= SentBytes(c, size)
  {
    DataFrames(id, c.data[total..SentBytes(c, size)])
  }

  lemma NextChunk(c: Content, size: nat, total: nat, length: nat)
    requires total <= SentBytes(c, size) && total < size && length == Min(MAX_CHUNK, size - total)
    requires total % MAX_CHUNK == 0
    ensures c.lapse == Some(total / MAX_CHUNK) <==> Lapses(c, size) && total == SentBytes(c, size)
    ensures total + length > |c.data| || c.lapse == Some(total / MAX_CHUNK) <==> total == SentBytes(c, size)
    ensures total + length > |c.data| ==> c.lapse == Some(total / MAX_CHUNK) || !Lapses(c, size)
    ensures total + length <= |c.data| && c.lapse != Some(total / MAX_CHUNK) ==> total + length <= SentBytes(c, size)
  {
  }

  lemma LeftNext(id: uint32, c: Content, size: nat, total: nat, length: nat)
    requires total <= SentBytes(c, size) && total < size && length == Min(MAX_CHUNK, size - total)
    requires total % MAX_CHUNK == 0
    ensures c.lapse == Some(total / MAX_CHUNK) <==> Lapses(c, size) && total == SentBytes(c, size)
    ensures total + length > |c.data| || c.lapse == Some(total / MAX_CHUNK) <==> total == SentBytes(c, size)
    ensures total + length > |c.data| ==> c.lapse == Some(total / MAX_CHUNK) || !Lapses(c, size)
    ensures total + length <= |c.data| && c.lapse != Some(total / MAX_CHUNK) ==>
            && total + length <= SentBytes(c, size)
            && (total + length < size ==> length == MAX_CHUNK)
            && Left(id, c, size, total)
            == [DataFrame(id, c.data[total..total + length])] + Left(id, c, size, total + length)
  {
    var k := SentBytes(c, size);
    NextChunk(c, size, total, length);
    if total + length <= |c.data| && c.lapse != Some(total / MAX_CHUNK) {
      var rest := c.data[total..k];
      assert rest[..length] == c.data[total..total + length];
      assert rest[length..] == c.data[total + length..k];
      assert DataFrames(id, rest) == [DataFrame(id, rest[..length])] + DataFrames(id, rest[length..]);
    }
  }

  lemma LeftEnds(id: uint32, c: Content, size: nat)
    ensures |c.data| >= size && !Lapses(c, size) ==> SentBytes(c, size) == size
    ensures Left(id, c, size, 0) == DataFrames(id, c.data[..SentBytes(c, size)])
    ensures Left(id, c, size, SentBytes(c, size)) == []
  {
    var k := SentBytes(c, size);
    assert c.data[k..k] == [] && c.data[0..k] == c.data[..k];
  }

  lemma Slice<T>(data: seq<T>, i: nat, n: nat)
    requires i + n <= |data|
    ensures data[i..][..n] == data[i..i + n] && data[i..][n..] == data[i + n..]
    ensures data[..i] + data[i..i + n] == data[..i + n]
  {
  }

  lemma Regroup<T>(done: seq<T>, next: T, rest: seq<T>)
    ensures done + ([next] + rest) == (done + [next]) + rest
  {
  }

  /** The loop of sendBody: chunk by chunk while the reader can fill them. */
  method SendChunks(conn: Conn, id: uint32, body: Source, size: nat) returns (hashed: seq<byte>, err: Option<Cause>)
    modifies conn`output, conn`room, body`rest
    ensures var c := old(body.Holds());
            var frames := DataFrames(id, c.data[..SentBytes(c, size)]);
            && conn.Sent(old(conn.output), old(conn.room), frames)
            && (err == None <==> size <= |c.data| && !Lapses(c, size) && |frames| <= old(conn.room))
            && (err.Some? ==> err == Some(if |frames| <= old(conn.room) then Fault(c, size) else Internal))
            && (err == None ==> hashed == c.data[..size] && body.rest == c.data[size..])
  {
    ghost var c := body.Holds();
    ghost var done: seq<Frame> := [];
    LeftEnds(id, c, size);
    TookNothing(conn.output, conn.room);
    hide Left, SentBytes, DataFrames, Took, Lapses;
    hashed := [];
    var total := 0;
    while total < size
      invariant 0 <= total <= SentBytes(c, size) && total <= size
      invariant total < size ==> total % MAX_CHUNK == 0
      invariant hashed == c.data[..total] && body.rest == c.data[total..]
      invariant Left(id, c, size, 0) == done + Left(id, c, size, total)
      invariant Took(conn.output, conn.room, old(conn.output), old(conn.room), done)
      invariant conn.room + |done| == old(conn.room)
    {
      LeftNext(id, c, size, total, Min(MAX_CHUNK, size - total));
      if body.Expired(total) {
        return hashed, Some(Internal);
      }
      var length := Min(MAX_CHUNK, size - total);
      var chunk := body.ReadFull(length);
      if chunk == None {
        return hashed, Some(CHANGED);
      }
      Slice(c.data, total, length);
      var f := DataFrame(id, chunk.value);
      ghost var left := Left(id, c, size, total + length);
      Regroup(done, f, left);
      ghost var middle, room := conn.output, conn.room;
      var sent := conn.Send(f);
      TookThen(conn.output, conn.room, middle, room, old(conn.output), old(conn.room), done, [f]);
      if !sent {
        TookFull(conn.output, old(conn.output), old(conn.room), done, [f] + left);
        return hashed, Some(Internal);
      }
      done := done + [f];
      hashed := hashed + chunk.value;
      total := total + length;
    }
    err := None;
  }

  /** sendBody: END goes out exactly when the reader yields the announced bytes and then ends. */
  method SendBody(conn: Conn, sha: Hash, id: uint32, body: Source, size: nat) returns (err: Option<Cause>)
    modifies conn`output, conn`room, body`rest
    ensures var c := old(body.Holds());
            var frames := SenderFrames(sha, id, c, size);
            && conn.Sent(old(conn.output), old(conn.room), frames)
            && (err == None <==> Exact(c, size) && |frames| <= old(conn.room))
            && (err.Some? ==> err == Some(if |frames| <= old(conn.room) then Fault(c, size) else Internal))
  {
    ghost var c := body.Holds();
    ghost var datas := DataFrames(id, c.data[..SentBytes(c, size)]);
    SenderParts(sha, id, c, size);
    hide SenderFrames, SentBytes, DataFrames, Took;
    var hashed;
    hashed, err := SendChunks(conn, id, body, size);
    TookFits(conn.output, conn.room, old(conn.output), old(conn.room), datas);
    if err != None {
      if conn.room == 0 {
        TookFull(conn.output, old(conn.output), old(conn.room), datas, [EndFrame(sha, id, c.data)]);
      }
      return;
    }
    var ended := body.AtEnd();
    if !ended {
      return Some(CHANGED);
    }
    assert hashed == c.data;
    ghost var middle, room := conn.output, conn.room;
    var sent := conn.Send(Frame(End, id, Ending(size, sha(hashed)), []));
    TookThen(conn.output, conn.room, middle, room, old(conn.output), old(conn.room), datas, [EndFrame(sha, id, c.data)]);
    err := if sent then None else Some(Internal);
  }

  lemma SenderParts(sha: Hash, id: uint32, c: Content, size: nat)
    ensures SenderFrames(sha, id, c, size) == DataFrames(id, c.data[..SentBytes(c, size)])
              + if Exact(c, size) then [EndFrame(sha, id, c.data)] else []
    ensures !Exact(c, size) ==> SenderFrames(sha, id, c, size) == DataFrames(id, c.data[..SentBytes(c, size)])
    ensures size > |c.data| ==> !Exact(c, size)
  {
    assert c.data[..|c.data|] == c.data;
  }

  lemma ExactSends(sha: Hash, id: uint32, payload: seq<byte>)
    ensures SenderFrames(sha, id, Content(payload, true, None), |payload|) == BodyFrames(sha, id, payload)
  {
  }

  /** Where a receiver stands: still reading, verified, or refused; got is what the destination was handed. */
  datatype Intake = Receiving(got: seq<byte>) | Complete(got: seq<byte>) | Rejected(got: seq<byte>, cause: Cause)

  /** What the session needs to know about hashing and remote errors. */
  datatype Rules = Rules(sha: Hash, reportable: RemoteError -> bool)

  function Take(r: Rules, id: uint32, size: int, got: seq<byte>, f: Frame): Intake {
    if f.id != id then Rejected(got, Protocol)
    else match f.kind
      case Data =>
        if f.meta != Empty || |f.body| > size - |got| then Rejected(got, Protocol)
        else Receiving(got + f.body)
      case End =>
        if !f.meta.Ending? then Rejected(got, Protocol)
        else if |got| != size || f.meta.size != |got| || f.meta.sha256 != r.sha(got) then Rejected(got, Protocol)
        else Complete(got)
      case Error =>
        var refusal := Expect(r.reportable, f, End, id);
        Rejected(got, refusal.value)
      case _ => Rejected(got, Protocol)
  }

  /** The receiver loop over the frames that arrive, and the frames it leaves unread. */
  function Drain(r: Rules, id: uint32, size: int, got: seq<byte>, input: seq<Frame>): (Intake, seq<Frame>)
    decreases |input|
  {
    if input == [] then (Receiving(got), [])
    else
      match Take(r, id, size, got, input[0])
      case Receiving(more) => Drain(r, id, size, more, input[1..])
      case over => (over, input[1..])
  }

  /** The wire form of one verified body: DATA frames under the ID that spell the content, then a matching END. */
  ghost predicate Transcript(sha: Hash, id: uint32, content: seq<byte>, datas: seq<Frame>, end: Frame) {
    && (forall i :: 0 <= i < |datas| ==> datas[i] == DataFrame(id, datas[i].body))
    && Bodies(datas) == content
    && end.kind == End && end.id == id && end.meta == Ending(|content|, sha(content))
  }

  lemma {:induction false} DrainSound(r: Rules, id: uint32, size: int, got: seq<byte>, input: seq<Frame>)
    returns (datas: seq<Frame>, end: Frame)
    requires Drain(r, id, size, got, input).0.Complete?
    ensures var (s, rest) := Drain(r, id, size, got, input);
            && input == datas + [end] + rest
            && (forall i :: 0 <= i < |datas| ==> datas[i] == DataFrame(id, datas[i].body))
            && s.got == got + Bodies(datas) && |s.got| == size
            && end.kind == End && end.id == id && end.meta == Ending(|s.got|, r.sha(s.got))
    decreases |input|
  {
    var t := Take(r, id, size, got, input[0]);
    if t.Receiving? {
      var more;
      more, end := DrainSound(r, id, size, t.got, input[1..]);
      datas := [input[0]] + more;
      assert got + input[0].body + Bodies(more) == got + Bodies(datas);
    } else {
      datas, end := [], input[0];
    }
  }

  lemma {:induction false} DrainData(r: Rules, id: uint32, size: int, got: seq<byte>, datas: seq<Frame>, tail: seq<Frame>)
    requires forall i :: 0 <= i < |datas| ==> datas[i] == DataFrame(id, datas[i].body)
    requires |got| + |Bodies(datas)| <= size
    ensures Drain(r, id, size, got, datas + tail) == Drain(r, id, size, got + Bodies(datas), tail)
    decreases |datas|
  {
    if datas == [] {
      assert datas + tail == tail && got + Bodies(datas) == got;
    } else {
      var all := datas + tail;
      assert all[0] == datas[0] && all[1..] == datas[1..] + tail;
      assert Take(r, id, size, got, all[0]) == Receiving(got + datas[0].body);
      hide Take;
      DrainData(r, id, size, got + datas[0].body, datas[1..], tail);
      assert got + datas[0].body + Bodies(datas[1..]) == got + Bodies(datas);
    }
  }

  /** The receiver verifies a body exactly when a transcript of the announced size stands at the front of the stream. */
  lemma VerifiedIffTranscript(r: Rules, id: uint32, size: int, input: seq<Frame>, content: seq<byte>, rest: seq<Frame>)
    ensures Drain(r, id, size, [], input) == (Complete(content), rest)
       <==> |content| == size
            && exists datas, end :: Transcript(r.sha, id, content, datas, end) && input == datas + [end] + rest
  {
    if Drain(r, id, size, [], input) == (Complete(content), rest) {
      var datas, end := DrainSound(r, id, size, [], input);
      assert Transcript(r.sha, id, content, datas, end);
    }
    if datas, end :| |content| == size && Transcript(r.sha, id, content, datas, end) && input == datas + [end] + rest {
      DrainData(r, id, size, [], datas, [end] + rest);
      assert input == datas + ([end] + rest);
      assert [] + content == content && ([end] + rest)[1..] == rest;
    }
  }

  /** On every path the destination has been handed the bodies of leading DATA frames under the ID, and no more
      than the announced size. */
  lemma {:induction false} DrainDelivers(r: Rules, id: uint32, size: int, got: seq<byte>, input: seq<Frame>) returns (k: nat)
    requires |got| <= size
    ensures k <= |input| && Drain(r, id, size, got, input).0.got == got + Bodies(input[..k])
    ensures forall i :: 0 <= i < k ==> input[i] == DataFrame(id, input[i].body)
    ensures |Drain(r, id, size, got, input).0.got| <= size
    decreases |input|
  {
    k := 0;
    if input != [] {
      var t := Take(r, id, size, got, input[0]);
      if t.Receiving? {
        var j := DrainDelivers(r, id, size, t.got, input[1..]);
        k := j + 1;
        assert input[..k] == [input[0]] + input[1..][..j];
        assert got + Bodies(input[..k]) == got + input[0].body + Bodies(input[1..][..j]);
      }
    }
  }

  /** An ERROR under the ID whose remote error may be reported. */
  predicate Reports(r: Rules, id: uint32, f: Frame) {
    f.id == id && f.kind == Error && f.meta.Report? && r.reportable(f.meta.error)
  }

  /** Why a body was refused: the first frame that is neither fitting DATA nor the END tells. */
  lemma {:induction false} DrainRefuses(r: Rules, id: uint32, size: int, got: seq<byte>, input: seq<Frame>) returns (n: nat)
    requires !Drain(r, id, size, got, input).0.Complete?
    ensures var (s, rest) := Drain(r, id, size, got, input);
            && n <= |input| && rest == input[n..]
            && (s.Receiving? ==> n == |input|)
            && (s.Rejected? ==> n > 0 && s.cause == if Reports(r, id, input[n - 1]) then Remote(input[n - 1].meta.error) else Protocol)
    ensures forall i :: 0 <= i < n - 1 ==> input[i] == DataFrame(id, input[i].body)
    decreases |input|
  {
    n := 0;
    if input != [] {
      var t := Take(r, id, size, got, input[0]);
      n := 1;
      if t.Receiving? {
        var k := DrainRefuses(r, id, size, t.got, input[1..]);
        n := k + 1;
        assert input[1..][k..] == input[n..];
        assert forall i :: 1 <= i < |input| ==> input[i] == input[1..][i - 1];
      }
    }
  }

  /** What a sender emits for an exact body, a receiver told the same size verifies, whole and without reading on. */
  lemma SentIsVerified(r: Rules, id: uint32, payload: seq<byte>, tail: seq<Frame>)
    ensures Drain(r, id, |payload|, [], BodyFrames(r.sha, id, payload) + tail) == (Complete(payload), tail)
  {
    ChunkingIsExact(id, payload);
    var datas, end := DataFrames(id, payload), EndFrame(r.sha, id, payload);
    assert Transcript(r.sha, id, payload, datas, end);
    assert BodyFrames(r.sha, id, payload) + tail == datas + [end] + tail;
    VerifiedIffTranscript(r, id, |payload|, BodyFrames(r.sha, id, payload) + tail, payload, tail);
  }

  /** A destination writer: what it holds and how many bytes it still accepts before failing. */
  class Sink {
    var data: seq<byte>
    var room: nat

    constructor (room: nat)
      ensures data == [] && this.room == room
    {
      data, this.room := [], room;
    }

    method WriteAll(part: seq<byte>) returns (ok: bool)
      modifies this
      ensures ok <==> |part| <= old(room)
      ensures ok ==> room == old(room) - |part|
      ensures data == old(data) + Fitting(part, old(room))
    {
      ok := |part| <= room;
      if ok {
        data := data + part;
        room := room - |part|;
      } else {
        data := data + part[..room];
      }
    }
  }

  /** Without a failing destination the receiver does exactly what Drain says; late tells of a context that ended
      before the call returned. */
  method ReceiveBody(conn: Conn, r: Rules, id: uint32, size: nat, dest: Sink, late: bool)
    returns (digest: string, err: Option<Cause>)
    modifies conn`input, dest
    ensures var (s, rest) := Drain(r, id, size, [], old(conn.input));
            && dest.data == old(dest.data) + Fitting(s.got, old(dest.room))
            && (|s.got| <= old(dest.room) ==>
                  && conn.input == rest && dest.room == old(dest.room) - |s.got|
                  && err == (match s
                             case Receiving(_) => Some(conn.ending)
                             case Complete(_) => if late then Some(Internal) else None
                             case Rejected(_, cause) => Some(cause)))
            && (err == None ==> digest == r.sha(s.got))
            && (|s.got| > old(dest.room) ==> err == Some(Internal))
  {
    ghost var outcome := Drain(r, id, size, [], conn.input);
    ghost var got: seq<byte> := [];
    var hashed: seq<byte> := [];
    var received := 0;
    digest := "";
    while true
      invariant received == |got| && hashed == got
      invariant dest.data == old(dest.data) + got && dest.room == old(dest.room) - |got|
      invariant got <= outcome.0.got
      invariant Drain(r, id, size, got, conn.input) == outcome
      invariant conn.ending == old(conn.ending)
      decreases |conn.input|
    {
      var frame := conn.Read();
      if frame == None {
        return digest, Some(conn.ending);
      }
      var f := frame.value;
      if f.id != id {
        return digest, Some(Protocol);
      }
      match f.kind
      case Data =>
        if f.meta != Empty {
          return digest, Some(Protocol);
        }
        if |f.body| > size - received {
          return digest, Some(Protocol);
        }
        DrainGrows(r, id, size, got + f.body, conn.input);
        var ok := dest.WriteAll(f.body);
        if !ok {
          FittingInside(got, f.body, outcome.0.got, old(dest.room));
          return digest, Some(Internal);
        }
        hashed := hashed + f.body;
        received := received + |f.body|;
        got := got + f.body;
      case End =>
        if !f.meta.Ending? {
          return digest, Some(Protocol);
        }
        digest := r.sha(hashed);
        if received != size || f.meta.size != received || f.meta.sha256 != digest {
          return digest, Some(Protocol);
        }
        return digest, if late then Some(Internal) else None;
      case Error =>
        return digest, Expect(r.reportable, f, End, id);
      case _ =>
        return digest, Some(Protocol);
    }
  }

  lemma {:induction false} DrainGrows(r: Rules, id: uint32, size: int, got: seq<byte>, input: seq<Frame>)
    ensures got <= Drain(r, id, size, got, input).0.got
    decreases |input|
  {
    if input != [] {
      var t := Take(r, id, size, got, input[0]);
      if t.Receiving? {
        DrainGrows(r, id, size, t.got, input[1..]);
      }
    }
  }

  lemma FittingInside<T>(got: seq<T>, more: seq<T>, whole: seq<T>, room: nat)
    requires got + more <= whole && |got| <= room < |got| + |more|
    ensures Fitting(whole, room) == got + Fitting(more, room - |got|)
  {
    assert whole[..|got|] == got;
  }
}
