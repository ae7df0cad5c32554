/** The DEEP frame codec (protocol.go) over readers and writers that may fragment. */
module Codec {
  import opened Bytes

  const MAGIC: seq<byte> := [0x44, 0x45, 0x45, 0x50]
  const PROTOCOL_VERSION: byte := 2
  const HEADER_SIZE := 20
  const MAX_METADATA := 8192
  const MAX_CHUNK := 65536

  const HELLO: byte := 1
  const WELCOME: byte := 2
  const REQUEST: byte := 3
  const END: byte := 6
  const DATA: byte := 5
  const CLOSE: byte := 8
  const CONTINUE: byte := 9

  datatype Frame = Frame(kind: byte, id: uint32, metadata: seq<byte>, body: seq<byte>)

  predicate ValidHeader(kind: byte, id: uint32, metaSize: int, bodySize: int) {
    && HELLO <= kind <= CONTINUE
    && 2 <= metaSize <= MAX_METADATA && bodySize <= MAX_CHUNK
    && (kind != DATA ==> bodySize == 0)
    && (kind == DATA ==> bodySize != 0)
    && (kind == HELLO || kind == WELCOME || kind == CLOSE ==> id == 0)
    && (REQUEST <= kind <= END || kind == CONTINUE ==> id != 0)
  }

  /** What WriteFrame demands; json stands for validateJSON. */
  predicate Writable(json: seq<byte> -> bool, f: Frame) {
    ValidHeader(f.kind, f.id, |f.metadata|, |f.body|) && json(f.metadata)
  }

  function Header(f: Frame): (h: seq<byte>)
    requires |f.metadata| <= MAX_METADATA && |f.body| <= MAX_CHUNK
    ensures |h| == HEADER_SIZE
  {
    MAGIC + [PROTOCOL_VERSION, f.kind, 0, 0] + PutUint32(f.id) + PutUint32(|f.metadata|) + PutUint32(|f.body|)
  }

  function Encode(f: Frame): seq<byte>
    requires |f.metadata| <= MAX_METADATA && |f.body| <= MAX_CHUNK
  {
    Header(f) + f.metadata + f.body
  }

  /** How one ReadFrame call ends: a frame, a stream that stopped early, or a protocol error. */
  datatype Outcome = Got(frame: Frame) | Ended | Malformed

  /** ReadFrame as a function of the bytes that arrive before the stream ends: outcome and unread bytes. */
  function Decode(json: seq<byte> -> bool, input: seq<byte>): (Outcome, seq<byte>) {
    if |input| < HEADER_SIZE then (Ended, [])
    else
      var m, b := Uint32(input[12..16]), Uint32(input[16..20]);
      if input[..4] != MAGIC || input[4] != PROTOCOL_VERSION || input[6..8] != [0, 0] then
        (Malformed, input[HEADER_SIZE..])
      else if !ValidHeader(input[5], Uint32(input[8..12]), m, b) then
        (Malformed, input[HEADER_SIZE..])
      else if |input| < HEADER_SIZE + m then (Ended, [])
      else if !json(input[HEADER_SIZE..HEADER_SIZE + m]) then (Malformed, input[HEADER_SIZE + m..])
      else if |input| < HEADER_SIZE + m + b then (Ended, [])
      else
        (Got(Frame(input[5], Uint32(input[8..12]), input[HEADER_SIZE..HEADER_SIZE + m],
                   input[HEADER_SIZE + m..HEADER_SIZE + m + b])),
         input[HEADER_SIZE + m + b..])
  }

  /** Reading back what was written gives the same frame and leaves every later byte alone. */
  lemma DecodeEncode(json: seq<byte> -> bool, f: Frame, suffix: seq<byte>)
    requires Writable(json, f)
    ensures Decode(json, Encode(f) + suffix) == (Got(f), suffix)
  {
    var input := Encode(f) + suffix;
    var h := Header(f);
    var m, b := |f.metadata|, |f.body|;
    assert input[..HEADER_SIZE] == h;
    assert input[..4] == h[..4] == MAGIC;
    assert input[6..8] == h[6..8] == [0, 0];
    assert input[8..12] == h[8..12] == PutUint32(f.id);
    assert input[12..16] == h[12..16] == PutUint32(m);
    assert input[16..20] == h[16..20] == PutUint32(b);
    assert input[HEADER_SIZE..HEADER_SIZE + m] == f.metadata;
    assert input[HEADER_SIZE + m..HEADER_SIZE + m + b] == f.body;
    assert input[HEADER_SIZE + m + b..] == suffix;
  }

  lemma HeaderFields(h: seq<byte>, f: Frame)
    requires |h| == HEADER_SIZE && |f.metadata| <= MAX_METADATA && |f.body| <= MAX_CHUNK
    requires h[..4] == MAGIC && h[4] == PROTOCOL_VERSION && h[5] == f.kind && h[6..8] == [0, 0]
    requires Uint32(h[8..12]) == f.id && Uint32(h[12..16]) == |f.metadata| && Uint32(h[16..20]) == |f.body|
    ensures h == Header(f)
  {
    PutUint32Inverse(h[8..12]);
    PutUint32Inverse(h[12..16]);
    PutUint32Inverse(h[16..20]);
    hide PutUint32, Uint32;
    assert h == h[..4] + [h[4], h[5]] + h[6..8] + h[8..12] + h[12..16] + h[16..20];
  }

  /** Everything ReadFrame accepts is exactly what WriteFrame emits for the result. */
  lemma EncodeDecode(json: seq<byte> -> bool, input: seq<byte>)
    requires Decode(json, input).0.Got?
    ensures var (r, rest) := Decode(json, input);
            Writable(json, r.frame) && input == Encode(r.frame) + rest
  {
    var (r, rest) := Decode(json, input);
    var h := input[..HEADER_SIZE];
    assert h[..4] == input[..4] && h[6..8] == input[6..8] && h[8..12] == input[8..12];
    assert h[12..16] == input[12..16] && h[16..20] == input[16..20];
    HeaderFields(h, r.frame);
    hide Uint32, Header;
    assert input == h + r.frame.metadata + r.frame.body + rest;
  }

  /** No encoding is a proper prefix of another; two streams that agree agree on their first frame. */
  lemma SelfDelimiting(json: seq<byte> -> bool, f: Frame, s: seq<byte>, g: Frame, t: seq<byte>)
    requires Writable(json, f) && Writable(json, g)
    requires Encode(f) + s == Encode(g) + t
    ensures f == g && s == t
  {
    DecodeEncode(json, f, s);
    DecodeEncode(json, g, t);
  }

  ghost predicate AllWritable(json: seq<byte> -> bool, fs: seq<Frame>) {
    forall i :: 0 <= i < |fs| ==> Writable(json, fs[i])
  }

  function EncodeAll(json: seq<byte> -> bool, fs: seq<Frame>): seq<byte>
    requires AllWritable(json, fs)
  {
    if fs == [] then [] else Encode(fs[0]) + EncodeAll(json, fs[1..])
  }

  /** Every whole frame at the front of a stream, and what ReadFrame meets after them. */
  function DecodeAll(json: seq<byte> -> bool, input: seq<byte>): (r: (seq<Frame>, Outcome))
    ensures !r.1.Got?
    decreases |input|
  {
    match Decode(json, input)
    case (Got(f), rest) =>
      assert |rest| < |input| by { EncodeDecode(json, input); }
      var (fs, stop) := DecodeAll(json, rest);
      ([f] + fs, stop)
    case (stop, _) => ([], stop)
  }

  lemma DecodeAllCons(json: seq<byte> -> bool, input: seq<byte>, f: Frame, rest: seq<byte>)
    requires Decode(json, input) == (Got(f), rest)
    ensures DecodeAll(json, input) == ([f] + DecodeAll(json, rest).0, DecodeAll(json, rest).1)
  {
  }

  lemma DecodeAllFirst(json: seq<byte> -> bool, f: Frame, rest: seq<byte>)
    requires Writable(json, f)
    ensures DecodeAll(json, Encode(f) + rest) == ([f] + DecodeAll(json, rest).0, DecodeAll(json, rest).1)
  {
    DecodeEncode(json, f, rest);
    DecodeAllCons(json, Encode(f) + rest, f, rest);
  }

  /** A concatenation of frames reads back as exactly those frames, whatever follows them. */
  lemma {:induction false} DecodeAllEncodeAll(json: seq<byte> -> bool, fs: seq<Frame>, tail: seq<byte>)
    requires AllWritable(json, fs)
    ensures DecodeAll(json, EncodeAll(json, fs) + tail)
         == (fs + DecodeAll(json, tail).0, DecodeAll(json, tail).1)
  {
    hide Decode, Encode, Header;
    if fs == [] {
      assert EncodeAll(json, fs) + tail == tail;
      assert fs + DecodeAll(json, tail).0 == DecodeAll(json, tail).0;
    } else {
      DecodeAllEncodeAll(json, fs[1..], tail);
      DecodeAllFirst(json, fs[0], EncodeAll(json, fs[1..]) + tail);
      assert EncodeAll(json, fs) + tail == Encode(fs[0]) + (EncodeAll(json, fs[1..]) + tail);
      assert [fs[0]] + (fs[1..] + DecodeAll(json, tail).0) == fs + DecodeAll(json, tail).0;
    }
  }

  /** A byte stream splits into frames one way only. */
  lemma SplitsOneWay(json: seq<byte> -> bool, fs: seq<Frame>, gs: seq<Frame>)
    requires AllWritable(json, fs) && AllWritable(json, gs)
    requires EncodeAll(json, fs) == EncodeAll(json, gs)
    ensures fs == gs
  {
    hide Decode, Encode, Header;
    DecodeAllEncodeAll(json, fs, []);
    DecodeAllEncodeAll(json, gs, []);
    var x := DecodeAll(json, []).0;
    assert fs + x == gs + x;
    assert fs == (fs + x)[..|fs|] && gs == (gs + x)[..|gs|];
  }

  /** A byte source. rest is what arrives before it ends, be it by EOF, reset or deadline. */
  class Reader {
    var rest: seq<byte>

    constructor (rest: seq<byte>)
      ensures this.rest == rest
    {
      this.rest := rest;
    }

    /** One Read of at most max bytes: any nonempty prefix, or nothing once the source has ended. */
    method Read(max: nat) returns (part: seq<byte>)
      requires max > 0
      modifies this
      ensures old(rest) == part + rest
      ensures |part| <= max
      ensures part == [] <==> old(rest) == []
    {
      if rest == [] {
        part := [];
      } else {
        var n :| 1 <= n <= max && n <= |rest|;
        part := rest[..n];
        rest := rest[n..];
      }
    }
  }

  /** io.ReadFull, and receive_exact of the Python probe: whole or nothing, however the source fragments. */
  method ReadFull(r: Reader, length: nat) returns (got: Option<seq<byte>>)
    modifies r
    ensures length <= |old(r.rest)| ==> got == Some(old(r.rest)[..length]) && r.rest == old(r.rest)[length..]
    ensures length > |old(r.rest)| ==> got == None && r.rest == []
  {
    var data: seq<byte> := [];
    while |data| < length
      invariant |data| <= length
      invariant old(r.rest) == data + r.rest
    {
      var part := r.Read(length - |data|);
      if part == [] {
        return None;
      }
      data := data + part;
    }
    got := Some(data);
  }

  method ReadFrame(json: seq<byte> -> bool, r: Reader) returns (result: Outcome)
    modifies r
    ensures (result, r.rest) == Decode(json, old(r.rest))
  {
    ghost var input := r.rest;
    var header := ReadFull(r, HEADER_SIZE);
    if header == None {
      return Ended;
    }
    var h := header.value;
    assert h[..4] == input[..4] && h[6..8] == input[6..8] && h[8..12] == input[8..12];
    assert h[12..16] == input[12..16] && h[16..20] == input[16..20];
    if h[..4] != MAGIC || h[4] != PROTOCOL_VERSION || h[6..8] != [0, 0] {
      return Malformed;
    }
    var kind, id, metaSize, bodySize := h[5], Uint32(h[8..12]), Uint32(h[12..16]), Uint32(h[16..20]);
    if !ValidHeader(kind, id, metaSize, bodySize) {
      return Malformed;
    }
    var metadata := ReadFull(r, metaSize);
    if metadata == None {
      return Ended;
    }
    assert metadata.value == input[HEADER_SIZE..HEADER_SIZE + metaSize];
    assert r.rest == input[HEADER_SIZE + metaSize..];
    if !json(metadata.value) {
      return Malformed;
    }
    var body := ReadFull(r, bodySize);
    if body == None {
      return Ended;
    }
    assert body.value == input[HEADER_SIZE + metaSize..HEADER_SIZE + metaSize + bodySize];
    assert r.rest == input[HEADER_SIZE + metaSize + bodySize..];
    result := Got(Frame(kind, id, metadata.value, body.value));
  }

  /** A byte sink that may accept any part of what it is given and may misreport how much. */
  class Writer {
    var out: seq<byte>

    constructor ()
      ensures out == []
    {
      out := [];
    }

    /** n is what the sink reports; an honest report says how many bytes it took. */
    method Write(data: seq<byte>) returns (n: int, failed: bool)
      modifies this
      ensures 0 <= n <= |data| ==> out == old(out) + data[..n]
      ensures exists k :: 0 <= k <= |data| && out == old(out) + data[..k]
    {
      var k :| 0 <= k <= |data|;
      out := out + data[..k];
      failed := *;
      if * {
        n := k;
      } else {
        n := *;
        if 0 <= n <= |data| {
          n := -1;
        }
      }
    }
  }

  ghost predicate Extends(longer: seq<byte>, base: seq<byte>, data: seq<byte>) {
    exists k {:trigger data[..k]} :: 0 <= k <= |data| && longer == base + data[..k]
  }

  lemma ExtendsPrefix(longer: seq<byte>, base: seq<byte>, data: seq<byte>, more: seq<byte>)
    requires Extends(longer, base, data)
    ensures Extends(longer, base, data + more)
  {
    var k :| 0 <= k <= |data| && longer == base + data[..k];
    assert (data + more)[..k] == data[..k];
  }

  lemma ExtendsAfter(longer: seq<byte>, base: seq<byte>, first: seq<byte>, data: seq<byte>)
    requires Extends(longer, base + first, data)
    ensures Extends(longer, base, first + data)
  {
    var k :| 0 <= k <= |data| && longer == base + first + data[..k];
    assert (first + data)[..|first| + k] == first + data[..k];
    assert base + first + data[..k] == base + (first + data[..k]);
  }

  method WriteAll(w: Writer, data: seq<byte>) returns (ok: bool)
    modifies w
    ensures ok ==> w.out == old(w.out) + data
    ensures Extends(w.out, old(w.out), data)
  {
    var left := data;
    ghost var done := 0;
    assert data[..0] == [];
    while |left| > 0
      invariant 0 <= done <= |data| && left == data[done..]
      invariant w.out == old(w.out) + data[..done]
    {
      var n, failed := w.Write(left);
      if n < 0 || n > |left| {
        ghost var k :| 0 <= k <= |left| && w.out == old(w.out) + data[..done] + left[..k];
        assert data[..done] + left[..k] == data[..done + k];
        return false;
      }
      assert data[..done] + left[..n] == data[..done + n];
      left := left[n..];
      done := done + n;
      if failed {
        return false;
      }
      if n == 0 {
        return false;
      }
    }
    assert data[..done] == data;
    ok := true;
  }

  /** A successful WriteFrame appends the encoding; a failed one leaves a prefix of it, and nothing if refused. */
  method WriteFrame(json: seq<byte> -> bool, w: Writer, f: Frame) returns (ok: bool)
    modifies w
    ensures ok ==> Writable(json, f) && w.out == old(w.out) + Encode(f)
    ensures !Writable(json, f) ==> !ok && w.out == old(w.out)
    ensures Writable(json, f) ==> Extends(w.out, old(w.out), Encode(f))
  {
    if |f.metadata| > MAX_METADATA || |f.body| > MAX_CHUNK {
      return false;
    }
    if !ValidHeader(f.kind, f.id, |f.metadata|, |f.body|) {
      return false;
    }
    if !json(f.metadata) {
      return false;
    }
    ghost var header, before := Header(f), w.out;
    ok := WriteAll(w, Header(f));
    if !ok {
      ExtendsPrefix(w.out, before, header, f.metadata + f.body);
      assert header + (f.metadata + f.body) == Encode(f);
      return;
    }
    ghost var middle := w.out;
    ok := WriteAll(w, f.metadata);
    if !ok {
      ExtendsAfter(w.out, before, header, f.metadata);
      ExtendsPrefix(w.out, before, header + f.metadata, f.body);
      return;
    }
    ok := WriteAll(w, f.body);
    assert middle + f.metadata == before + (header + f.metadata);
    ExtendsAfter(w.out, before, header + f.metadata, f.body);
  }

  /** The header test of the Python probe's read_frame. */
  predicate ProbeHeader(kind: byte, id: uint32, metaSize: int, bodySize: int) {
    && HELLO <= kind <= CLOSE
    && 2 <= metaSize <= MAX_METADATA && bodySize <= MAX_CHUNK
    && !((kind == DATA && bodySize == 0) || (kind != DATA && bodySize != 0))
    && !(kind in {HELLO, WELCOME, CLOSE} && id != 0)
    && !(REQUEST <= kind <= END && id == 0)
  }

  /** read_frame of the Python probe, with probeJson for metadata_object. */
  function ProbeDecode(probeJson: seq<byte> -> bool, input: seq<byte>): (Option<Frame>, seq<byte>) {
    if |input| < HEADER_SIZE then (None, [])
    else
      var m, b := Uint32(input[12..16]), Uint32(input[16..20]);
      if input[..4] != MAGIC || input[4] != PROTOCOL_VERSION || input[6..8] != [0, 0]
         || !ProbeHeader(input[5], Uint32(input[8..12]), m, b) then (None, input[HEADER_SIZE..])
      else if |input| < HEADER_SIZE + m then (None, [])
      else if !probeJson(input[HEADER_SIZE..HEADER_SIZE + m]) then (None, input[HEADER_SIZE + m..])
      else if |input| < HEADER_SIZE + m + b then (None, [])
      else (Some(Frame(input[5], Uint32(input[8..12]), input[HEADER_SIZE..HEADER_SIZE + m],
                       input[HEADER_SIZE + m..HEADER_SIZE + m + b])),
            input[HEADER_SIZE + m + b..])
  }

  /** The independent probe accepts exactly the Go frames other than CONTINUE, with the same result and remainder. */
  lemma ProbeAgrees(json: seq<byte> -> bool, input: seq<byte>, f: Frame, rest: seq<byte>)
    ensures ProbeDecode(json, input) == (Some(f), rest)
       <==> Decode(json, input) == (Got(f), rest) && f.kind != CONTINUE
  {
    if |input| >= HEADER_SIZE {
      var kind, id := input[5], Uint32(input[8..12]);
      var m, b := Uint32(input[12..16]), Uint32(input[16..20]);
      assert ProbeHeader(kind, id, m, b) <==> ValidHeader(kind, id, m, b) && kind != CONTINUE;
    }
  }

  // ----- the bytes on the wire, spelled out -----

  /** n, most significant byte first. */
  function BigEndian(n: uint32): seq<byte> {
    [n / 0x100_0000, n / 0x1_0000 % 0x100, n / 0x100 % 0x100, n % 0x100]
  }

  /** "DEEP", version 2, the type, two zero flag bytes, then ID, metadata length and body length in big-endian order. */
  lemma HeaderLayout(f: Frame)
    requires |f.metadata| <= MAX_METADATA && |f.body| <= MAX_CHUNK
    ensures Encode(f) == ['D' as int, 'E' as int, 'E' as int, 'P' as int, 2, f.kind, 0, 0]
                         + BigEndian(f.id) + BigEndian(|f.metadata|) + BigEndian(|f.body|) + f.metadata + f.body
  {
    PutIsBigEndian(f.id);
    PutIsBigEndian(|f.metadata|);
    PutIsBigEndian(|f.body|);
    hide PutUint32, BigEndian;
    assert MAGIC + [PROTOCOL_VERSION, f.kind, 0, 0] == ['D' as int, 'E' as int, 'E' as int, 'P' as int, 2, f.kind, 0, 0];
  }

  lemma PutIsBigEndian(n: uint32)
    ensures PutUint32(n) == BigEndian(n)
  {
    var hi, lo := n / 0x1_0000, n % 0x1_0000;
    assert n / 0x100_0000 == hi / 0x100 && n / 0x100 % 0x100 == lo / 0x100 && n % 0x100 == lo % 0x100;
  }

  /** Which frames are legal, type by type. */
  lemma HeaderTable(kind: byte, id: uint32, metaSize: nat, bodySize: nat)
    ensures ValidHeader(kind, id, metaSize, bodySize) <==>
            2 <= metaSize <= 8192 && match kind
              case 1 => id == 0 && bodySize == 0
              case 2 => id == 0 && bodySize == 0
              case 3 => id > 0 && bodySize == 0
              case 4 => id > 0 && bodySize == 0
              case 5 => id > 0 && 1 <= bodySize <= 65536
              case 6 => id > 0 && bodySize == 0
              case 7 => bodySize == 0
              case 8 => id == 0 && bodySize == 0
              case 9 => id > 0 && bodySize == 0
              case _ => false
  {
  }
}
