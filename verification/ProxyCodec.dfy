/** Proxy/1 control messages (proxy.go) on the fragmenting readers and writers of the frame codec. */
module ProxyCodec {
  import opened Bytes
  import Codec

  const PREFACE: seq<byte> := [0x44, 0x50, 0x52, 0x58, 0x30, 0x30, 0x30, 0x31]
  const MAX_MESSAGE := 4096
  const HEADER_SIZE := 12

  predicate Writable(data: seq<byte>) { 1 <= |data| <= MAX_MESSAGE }

  function Encode(data: seq<byte>): seq<byte>
    requires Writable(data)
  {
    PREFACE + PutUint32(|data|) + data
  }

  /** What ReadProxyMessage makes of the bytes that arrive, and the bytes it leaves; config stands for
      DecodeConfigJSON accepting the message. */
  function Decode(config: seq<byte> -> bool, input: seq<byte>): (Option<seq<byte>>, seq<byte>) {
    if |input| < HEADER_SIZE then (None, [])
    else
      var size := Uint32(input[8..12]);
      if input[..8] != PREFACE || size == 0 || size > MAX_MESSAGE then (None, input[HEADER_SIZE..])
      else if |input| < HEADER_SIZE + size then (None, [])
      else
        var data := input[HEADER_SIZE..HEADER_SIZE + size];
        (if config(data) then Some(data) else None, input[HEADER_SIZE + size..])
  }

  /** A message that is read back leaves the TLS bytes behind it intact. */
  lemma DecodeEncode(config: seq<byte> -> bool, data: seq<byte>, tls: seq<byte>)
    requires Writable(data) && config(data)
    ensures Decode(config, Encode(data) + tls) == (Some(data), tls)
  {
    var input := Encode(data) + tls;
    assert input[..8] == PREFACE && input[8..12] == PutUint32(|data|);
    assert input[HEADER_SIZE..HEADER_SIZE + |data|] == data && input[HEADER_SIZE + |data|..] == tls;
  }

  /** Whatever is accepted is exactly what WriteProxyMessage emits for it. */
  lemma EncodeDecode(config: seq<byte> -> bool, input: seq<byte>)
    requires Decode(config, input).0.Some?
    ensures var (data, rest) := Decode(config, input);
            Writable(data.value) && config(data.value) && input == Encode(data.value) + rest
  {
    PutUint32Inverse(input[8..12]);
    hide Uint32, PutUint32;
    var (data, rest) := Decode(config, input);
    assert input == input[..8] + input[8..12] + data.value + rest;
  }

  /** No message is a proper prefix of another, so the handshake ends at one place only. */
  lemma SelfDelimiting(a: seq<byte>, s: seq<byte>, b: seq<byte>, t: seq<byte>)
    requires Writable(a) && Writable(b) && Encode(a) + s == Encode(b) + t
    ensures a == b && s == t
  {
    DecodeEncode(x => true, a, s);
    DecodeEncode(x => true, b, t);
  }

  /** Wherever the writer stops, what is out is a prefix of the message. */
  method WriteProxyMessage(w: Codec.Writer, data: seq<byte>) returns (ok: bool)
    modifies w
    ensures ok ==> Writable(data) && w.out == old(w.out) + Encode(data)
    ensures !Writable(data) ==> !ok && w.out == old(w.out)
    ensures Writable(data) ==> Codec.Extends(w.out, old(w.out), Encode(data))
  {
    if |data| == 0 || |data| > MAX_MESSAGE {
      return false;
    }
    var header := PREFACE + PutUint32(|data|);
    ghost var before := w.out;
    ok := Codec.WriteAll(w, header);
    if !ok {
      Codec.ExtendsPrefix(w.out, before, header, data);
      return;
    }
    ok := Codec.WriteAll(w, data);
    Codec.ExtendsAfter(w.out, before, header, data);
    assert before + header + data == before + (header + data);
  }

  method ReadProxyMessage(config: seq<byte> -> bool, r: Codec.Reader) returns (data: Option<seq<byte>>)
    modifies r
    ensures (data, r.rest) == Decode(config, old(r.rest))
  {
    ghost var input := r.rest;
    var header := Codec.ReadFull(r, HEADER_SIZE);
    if header == None {
      return None;
    }
    assert header.value[..8] == input[..8] && header.value[8..12] == input[8..12];
    var size := Uint32(header.value[8..12]);
    if header.value[..8] != PREFACE || size == 0 || size > MAX_MESSAGE {
      return None;
    }
    var body := Codec.ReadFull(r, size);
    if body == None {
      return None;
    }
    assert body.value == input[HEADER_SIZE..HEADER_SIZE + size];
    assert r.rest == input[HEADER_SIZE + size..];
    data := if config(body.value) then body else None;
  }

  /** "DPRX0001", the length in big-endian order, then the message of 1 to 4096 bytes. */
  lemma MessageLayout(data: seq<byte>)
    ensures Writable(data) <==> 1 <= |data| <= 4096
    ensures Writable(data) ==>
      Encode(data) == ['D' as int, 'P' as int, 'R' as int, 'X' as int, '0' as int, '0' as int, '0' as int, '1' as int]
                      + Codec.BigEndian(|data|) + data
  {
    if Writable(data) {
      Codec.PutIsBigEndian(|data|);
    }
  }
}
