/** der_fields of the Python probe (interop/python_probe.py) against canonical DER definite-length encodings. */
module Der {
  import opened Bytes

  const LIMIT := 65536

  datatype Field = Field(tag: byte, value: seq<byte>)

  /** The shortest definite length, of at most three length bytes. */
  function Length(n: nat): seq<byte>
    requires n < 0x100_0000
  {
    if n < 0x80 then [n]
    else if n < 0x100 then [0x81, n]
    else if n < 0x1_0000 then [0x82, n / 0x100, n % 0x100]
    else [0x83, n / 0x1_0000, n / 0x100 % 0x100, n % 0x100]
  }

  predicate Encodable(fs: seq<Field>) {
    forall i :: 0 <= i < |fs| ==> |fs[i].value| < 0x100_0000
  }

  function Encode(f: Field): seq<byte>
    requires |f.value| < 0x100_0000
  {
    [f.tag] + Length(|f.value|) + f.value
  }

  function EncodeAll(fs: seq<Field>): seq<byte>
    requires Encodable(fs)
  {
    if fs == [] then [] else Encode(fs[0]) + EncodeAll(fs[1..])
  }

  /** int.from_bytes(b, "big") */
  function FromBytes(b: seq<byte>): nat {
    if b == [] then 0 else FromBytes(b[..|b| - 1]) * 0x100 + b[|b| - 1]
  }

  /** The length field at the front of s, and how many bytes it takes. */
  function ReadLength(s: seq<byte>): Option<(nat, nat)>
    requires s != []
  {
    if s[0] < 0x80 then Some((s[0], 1))
    else
      var count := s[0] - 0x80;
      if count == 0 || count > 3 || 1 + count > |s| || s[1] == 0 then None
      else
        var length := FromBytes(s[1..1 + count]);
        if length < 0x80 then None else Some((length, 1 + count))
  }

  lemma FromBytesIs(b: seq<byte>)
    ensures |b| == 1 ==> FromBytes(b) == b[0]
    ensures |b| == 2 ==> FromBytes(b) == b[0] as int * 0x100 + b[1]
    ensures |b| == 3 ==> FromBytes(b) == b[0] as int * 0x1_0000 + b[1] as int * 0x100 + b[2]
  {
    if 2 <= |b| <= 3 {
      FromBytesIs(b[..|b| - 1]);
    }
  }

  lemma Split2(n: nat, hi: byte, lo: byte)
    requires n == hi as int * 0x100 + lo
    ensures n / 0x100 == hi && n % 0x100 == lo
  {
  }

  lemma Split3(n: nat, a: byte, b: byte, c: byte)
    requires n == a as int * 0x1_0000 + b as int * 0x100 + c
    ensures n / 0x1_0000 == a && n / 0x100 % 0x100 == b && n % 0x100 == c
  {
    Split2(n - a as int * 0x1_0000, b, c);
  }

  /** Every length that is read is the canonical encoding: a non-minimal one is refused. */
  lemma LengthIsCanonical(s: seq<byte>)
    requires s != [] && ReadLength(s).Some?
    ensures var (n, k) := ReadLength(s).value; n < 0x100_0000 && k <= |s| && Length(n) == s[..k]
  {
    var (n, k) := ReadLength(s).value;
    var b := s[1..k];
    FromBytesIs(b);
    hide FromBytes;
    if k == 2 {
      assert s[..2] == [s[0], s[1]];
    } else if k == 3 {
      Split2(n, s[1], s[2]);
      assert s[..3] == [s[0], s[1], s[2]];
    } else if k == 4 {
      Split3(n, s[1], s[2], s[3]);
      assert s[..4] == [s[0], s[1], s[2], s[3]];
    }
  }

  lemma CanonicalReads(n: nat, rest: seq<byte>)
    requires n < 0x100_0000
    ensures ReadLength(Length(n) + rest) == Some((n, |Length(n)|))
  {
    var s := Length(n) + rest;
    var k := |Length(n)|;
    assert s[..k] == Length(n);
    if n >= 0x80 {
      var b := s[1..k];
      FromBytesIs(b);
    }
  }

  /** The field at the front of the input, and what follows it. */
  function One(input: seq<byte>): Option<(Field, seq<byte>)> {
    if |input| < 2 || ReadLength(input[1..]) == None then None
    else
      var (n, k) := ReadLength(input[1..]).value;
      if 1 + k + n > |input| then None
      else Some((Field(input[0], input[1 + k..1 + k + n]), input[1 + k + n..]))
  }

  function Prepend(done: seq<Field>, rest: Option<seq<Field>>): Option<seq<Field>> {
    if rest.Some? then Some(done + rest.value) else None
  }

  function Parse(input: seq<byte>): Option<seq<Field>>
    decreases |input|
  {
    if input == [] then Some([])
    else if One(input) == None then None
    else
      var (f, rest) := One(input).value;
      Prepend([f], Parse(rest))
  }

  lemma OneEncoded(f: Field, rest: seq<byte>)
    requires |f.value| < 0x100_0000
    ensures One(Encode(f) + rest) == Some((f, rest))
  {
    var n := |f.value|;
    var k, input := |Length(n)|, Encode(f) + rest;
    CanonicalReads(n, f.value + rest);
    assert input[1..] == Length(n) + (f.value + rest);
    hide Length, ReadLength;
    assert input[1 + k..1 + k + n] == f.value && input[1 + k + n..] == rest;
  }

  lemma EncodedOne(input: seq<byte>)
    requires One(input).Some?
    ensures var (f, rest) := One(input).value; |f.value| < 0x100_0000 && input == Encode(f) + rest
  {
    var (n, k) := ReadLength(input[1..]).value;
    LengthIsCanonical(input[1..]);
    hide ReadLength, Length;
    assert input[1..][..k] == input[1..1 + k];
    assert input == [input[0]] + input[1..1 + k] + input[1 + k..1 + k + n] + input[1 + k + n..];
  }

  lemma {:induction false} ParseEncoded(fs: seq<Field>)
    requires Encodable(fs)
    ensures Parse(EncodeAll(fs)) == Some(fs)
  {
    if fs != [] {
      ParseEncoded(fs[1..]);
      OneEncoded(fs[0], EncodeAll(fs[1..]));
      hide One;
      assert fs == [fs[0]] + fs[1..];
    }
  }

  lemma {:induction false} EncodedParse(input: seq<byte>)
    requires Parse(input).Some?
    ensures Encodable(Parse(input).value) && EncodeAll(Parse(input).value) == input
    decreases |input|
  {
    if input != [] {
      var (f, rest) := One(input).value;
      EncodedOne(input);
      hide One, Encode;
      EncodedParse(rest);
      assert ([f] + Parse(rest).value)[1..] == Parse(rest).value;
    }
  }

  /** der_fields is the exact inverse of concatenated canonical encodings, on every input of at most 65536 bytes. */
  lemma ParseIsInverse(input: seq<byte>, fs: seq<Field>)
    ensures Parse(input) == Some(fs) <==> Encodable(fs) && EncodeAll(fs) == input
  {
    if Parse(input) == Some(fs) {
      EncodedParse(input);
    }
    if Encodable(fs) && EncodeAll(fs) == input {
      ParseEncoded(fs);
    }
  }

  method DerFields(encoded: seq<byte>) returns (fields: Option<seq<Field>>)
    ensures fields.Some? ==> |encoded| <= LIMIT && Encodable(fields.value) && EncodeAll(fields.value) == encoded
    ensures fields == None ==> |encoded| > LIMIT || forall fs :: Encodable(fs) ==> EncodeAll(fs) != encoded
  {
    fields := Collect(encoded);
    forall fs ensures Parse(encoded) == Some(fs) <==> Encodable(fs) && EncodeAll(fs) == encoded {
      ParseIsInverse(encoded, fs);
    }
  }

  method Collect(encoded: seq<byte>) returns (result: Option<seq<Field>>)
    ensures result == if |encoded| <= LIMIT then Parse(encoded) else None
  {
    hide Parse, Prepend, One, FromBytes;
    var fields: seq<Field> := [];
    var offset := 0;
    if |encoded| > LIMIT {
      return None;
    }
    ParseBegins(encoded);
    while offset < |encoded|
      invariant 0 <= offset <= |encoded|
      invariant Parse(encoded) == Prepend(fields, Parse(encoded[offset..]))
    {
      ghost var start, s := offset, encoded[offset..];
      ParseStops(encoded, start, fields);
      if offset + 2 > |encoded| {
        return None;
      }
      var tag, length: nat := encoded[offset], encoded[offset + 1];
      offset := offset + 2;
      assert s[1..][0] == encoded[offset - 1];
      if length >= 0x80 {
        var count := length - 0x80;
        if count == 0 || count > 3 || offset + count > |encoded| || encoded[offset] == 0 {
          return None;
        }
        assert encoded[offset..offset + count] == s[1..][1..1 + count];
        length := FromBytes(encoded[offset..offset + count]);
        offset := offset + count;
        if length < 0x80 {
          return None;
        }
      }
      assert ReadLength(s[1..]) == Some((length, offset - start - 1));
      if offset + length > |encoded| {
        return None;
      }
      ParseGoesOn(encoded, start, fields, length, offset);
      fields := fields + [Field(tag, encoded[offset..offset + length])];
      offset := offset + length;
    }
    ParseFinishes(encoded, fields);
    result := Some(fields);
  }

  lemma ParseBegins(encoded: seq<byte>)
    ensures Parse(encoded) == Prepend([], Parse(encoded[0..]))
  {
    assert encoded[0..] == encoded;
    PrependNothing([], Parse(encoded));
  }

  lemma ParseFinishes(encoded: seq<byte>, fields: seq<Field>)
    requires Parse(encoded) == Prepend(fields, Parse(encoded[|encoded|..]))
    ensures Parse(encoded) == Some(fields)
  {
    assert fields + [] == fields;
  }

  /** When no field stands at the offset, there is no list of fields. */
  lemma ParseStops(encoded: seq<byte>, offset: nat, fields: seq<Field>)
    requires offset < |encoded| && Parse(encoded) == Prepend(fields, Parse(encoded[offset..]))
    ensures var s := encoded[offset..];
            (|s| < 2 || ReadLength(s[1..]) == None
             || 1 + ReadLength(s[1..]).value.1 + ReadLength(s[1..]).value.0 > |s|) ==> Parse(encoded) == None
  {
    hide ReadLength;
  }

  lemma OneAt(encoded: seq<byte>, start: nat, n: nat, at: nat)
    requires start + 2 <= at <= at + n <= |encoded| && ReadLength(encoded[start..][1..]) == Some((n, at - start - 1))
    ensures One(encoded[start..]) == Some((Field(encoded[start], encoded[at..at + n]), encoded[at + n..]))
  {
    var s, k := encoded[start..], at - start;
    hide ReadLength;
    assert s[k..k + n] == encoded[at..at + n] && s[k + n..] == encoded[at + n..];
  }

  lemma ParseGoesOn(encoded: seq<byte>, start: nat, fields: seq<Field>, n: nat, at: nat)
    requires start + 2 <= at <= at + n <= |encoded| && ReadLength(encoded[start..][1..]) == Some((n, at - start - 1))
    requires Parse(encoded) == Prepend(fields, Parse(encoded[start..]))
    ensures Parse(encoded) == Prepend(fields + [Field(encoded[start], encoded[at..at + n])], Parse(encoded[at + n..]))
  {
    var f, rest := Field(encoded[start], encoded[at..at + n]), encoded[at + n..];
    OneAt(encoded, start, n, at);
    hide One, Prepend, ReadLength;
    assert Parse(encoded[start..]) == Prepend([f], Parse(rest));
    PrependMore(fields, f, Parse(rest));
  }

  lemma PrependNothing(done: seq<Field>, rest: Option<seq<Field>>)
    requires done == []
    ensures Prepend(done, rest) == rest
  {
    if rest.Some? {
      assert done + rest.value == rest.value;
    }
  }

  lemma PrependMore(done: seq<Field>, f: Field, rest: Option<seq<Field>>)
    ensures Prepend(done, Prepend([f], rest)) == Prepend(done + [f], rest)
  {
    if rest.Some? {
      assert done + ([f] + rest.value) == done + [f] + rest.value;
    }
  }

  // ----- canonical means shortest -----

  /** A definite length of n, minimal or not: one byte below 0x80, or a count of 1 to 126 bytes and that many bytes
      that spell n, most significant first. */
  predicate Definite(s: seq<byte>, n: nat) {
    || (|s| == 1 && s[0] < 0x80 && s[0] == n)
    || (2 <= |s| <= 127 && s[0] == 0x80 + |s| - 1 && FromBytes(s[1..]) == n)
  }

  function Power(k: nat): nat { if k == 0 then 1 else 0x100 * Power(k - 1) }

  lemma {:induction false} FromBytesBelow(b: seq<byte>)
    ensures FromBytes(b) < Power(|b|)
  {
    if b != [] {
      FromBytesBelow(b[..|b| - 1]);
    }
  }

  lemma {:induction false} PowerGrows(a: nat, b: nat)
    requires a <= b
    ensures Power(a) <= Power(b)
  {
    if a < b {
      PowerGrows(a, b - 1);
    }
  }

  lemma {:induction false} SameBytes(a: seq<byte>, b: seq<byte>)
    requires |a| == |b| && FromBytes(a) == FromBytes(b)
    ensures a == b
  {
    if a != [] {
      var m := |a| - 1;
      Digits(FromBytes(a[..m]), a[m], FromBytes(b[..m]), b[m]);
      SameBytes(a[..m], b[..m]);
      assert a == a[..m] + [a[m]] && b == b[..m] + [b[m]];
    }
  }

  lemma Digits(a: nat, x: byte, b: nat, y: byte)
    requires a * 0x100 + x == b * 0x100 + y
    ensures a == b && x == y
  {
  }

  lemma LengthBytes(n: nat)
    requires n < 0x100_0000
    ensures Definite(Length(n), n)
    ensures n >= 0x80 ==> |Length(n)| >= 2 && (n < Power(|Length(n)| - 1)) && (|Length(n)| > 2 ==> n >= Power(|Length(n)| - 2))
  {
    assert Power(0) == 1 && Power(1) == 0x100 && Power(2) == 0x1_0000 && Power(3) == 0x100_0000;
    if n >= 0x80 {
      FromBytesIs(Length(n)[1..]);
    }
  }

  /** The canonical length is the one shortest definite length: any other spelling of the number is longer. */
  lemma LengthIsShortest(n: nat, s: seq<byte>)
    requires n < 0x100_0000 && Definite(s, n)
    ensures Definite(Length(n), n) && (s == Length(n) || |s| > |Length(n)|)
  {
    LengthBytes(n);
    var c := Length(n);
    if |s| > 1 && |s| <= |c| {
      FromBytesBelow(s[1..]);
      if |s| < |c| {
        PowerGrows(|s| - 1, |c| - 2);
      } else {
        SameBytes(s[1..], c[1..]);
        assert s == [s[0]] + s[1..] && c == [c[0]] + c[1..];
      }
    }
  }
}
