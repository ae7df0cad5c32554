/** validateSurrogates (protocol.go), what it means, and the Python probe's check of decoded text. */
module Surrogates {
  import opened Bytes

  const QUOTE: byte := 0x22
  const BACKSLASH: byte := 0x5C
  const U: byte := 0x75

  predicate IsHex(b: byte) { 0x30 <= b <= 0x39 || 0x41 <= b <= 0x46 || 0x61 <= b <= 0x66 }

  predicate Hex4(h: seq<byte>) {
    |h| == 4 && forall i :: 0 <= i < 4 ==> IsHex(h[i])
  }

  function HexDigit(b: byte): nat {
    if 0x30 <= b <= 0x39 then b - 0x30 else if 0x41 <= b <= 0x46 then b - 0x37 else if 0x61 <= b <= 0x66 then b - 0x57 else 0
  }

  function Value(h: seq<byte>): nat
    requires |h| == 4
  {
    ((HexDigit(h[0]) * 16 + HexDigit(h[1])) * 16 + HexDigit(h[2])) * 16 + HexDigit(h[3])
  }

  /** strconv.ParseUint(h, 16, 16) on four bytes. */
  function ParseHex(h: seq<byte>): Option<nat>
    requires |h| == 4
  {
    if Hex4(h) then Some(Value(h)) else None
  }

  /** The pieces of JSON text: quotes, escapes inside strings, and every other byte. */
  datatype Unit = Quote | Plain(b: byte) | Escape(b: byte) | Unicode(h: seq<byte>)

  function Spelled(u: Unit): seq<byte> {
    match u
    case Quote => [QUOTE]
    case Plain(b) => [b]
    case Escape(b) => [BACKSLASH, b]
    case Unicode(h) => [BACKSLASH, U] + h
  }

  function Spell(us: seq<Unit>): seq<byte> {
    if us == [] then [] else Spelled(us[0]) + Spell(us[1..])
  }

  predicate UnitOk(u: Unit, quoted: bool) {
    match u
    case Quote => true
    case Plain(b) => b != QUOTE && (quoted ==> b != BACKSLASH)
    case Escape(b) => quoted && b != U
    case Unicode(h) => quoted && Hex4(h)
  }

  /** In-string escapes are complete, with four hexadecimal digits after \u. */
  predicate Complete(us: seq<Unit>, quoted: bool) {
    us != [] ==> UnitOk(us[0], quoted) && Complete(us[1..], quoted != us[0].Quote?)
  }

  predicate High(u: Unit) { u.Unicode? && |u.h| == 4 && 0xD800 <= Value(u.h) <= 0xDBFF }
  predicate Low(u: Unit) { u.Unicode? && |u.h| == 4 && 0xDC00 <= Value(u.h) <= 0xDFFF }

  /** Every high surrogate escape is immediately followed by a low one, and there is no lone low. */
  predicate Paired(us: seq<Unit>) {
    forall i :: 0 <= i < |us| ==> PairedAt(us, i)
  }

  predicate PairedAt(us: seq<Unit>, i: nat)
    requires i < |us|
  {
    && (High(us[i]) ==> i + 1 < |us| && Low(us[i + 1]))
    && (Low(us[i]) ==> i > 0 && High(us[i - 1]))
  }

  /** The only way to cut text into pieces, if its escapes are complete. */
  function Cut(s: seq<byte>, quoted: bool): Option<seq<Unit>>
    decreases |s|
  {
    if s == [] then Some([])
    else if s[0] == QUOTE then Cons(Quote, Cut(s[1..], !quoted))
    else if !quoted || s[0] != BACKSLASH then Cons(Plain(s[0]), Cut(s[1..], quoted))
    else if |s| < 2 then None
    else if s[1] != U then Cons(Escape(s[1]), Cut(s[2..], quoted))
    else if |s| < 6 || !Hex4(s[2..6]) then None
    else Cons(Unicode(s[2..6]), Cut(s[6..], quoted))
  }

  function Cons(u: Unit, rest: Option<seq<Unit>>): Option<seq<Unit>> {
    if rest.Some? then Some([u] + rest.value) else None
  }

  predicate Sound(s: seq<byte>, quoted: bool) {
    Cut(s, quoted).Some? && Paired(Cut(s, quoted).value)
  }

  lemma {:induction false} CutSpell(us: seq<Unit>, quoted: bool)
    requires Complete(us, quoted)
    ensures Cut(Spell(us), quoted) == Some(us)
  {
    if us != [] {
      var s, rest := Spell(us), Spell(us[1..]);
      CutSpell(us[1..], quoted != us[0].Quote?);
      assert s[|Spelled(us[0])|..] == rest;
      assert s[..|Spelled(us[0])|] == Spelled(us[0]);
      assert us == [us[0]] + us[1..];
      if us[0].Unicode? {
        assert s[2..6] == us[0].h;
        assert Cut(s, quoted) == Cons(Unicode(us[0].h), Cut(s[6..], quoted));
      }
    }
  }

  lemma {:induction false} SpellCut(s: seq<byte>, quoted: bool)
    requires Cut(s, quoted).Some?
    ensures Complete(Cut(s, quoted).value, quoted) && Spell(Cut(s, quoted).value) == s
    decreases |s|
  {
    if s != [] {
      var us := Cut(s, quoted).value;
      var k := |Spelled(us[0])|;
      assert us[1..] == Cut(s[k..], quoted != us[0].Quote?).value;
      SpellCut(s[k..], quoted != us[0].Quote?);
      assert s == s[..k] + s[k..];
      assert s[..k] == Spelled(us[0]);
    }
  }

  lemma Shift(before: seq<Unit>, us: seq<Unit>, i: nat)
    requires i < |us| && before != [] && !High(before[|before| - 1])
    ensures PairedAt(before + us, |before| + i) <==> PairedAt(us, i)
  {
    var all := before + us;
    assert all[|before| + i] == us[i];
    assert i + 1 < |us| ==> all[|before| + i + 1] == us[i + 1];
    assert i > 0 ==> all[|before| + i - 1] == us[i - 1];
    assert all[|before| - 1] == before[|before| - 1];
    hide High, Low;
  }

  /** A start that is itself in order and does not end in a high escape changes nothing for the rest. */
  lemma PairedSkip(before: seq<Unit>, us: seq<Unit>)
    requires before != [] && !High(before[|before| - 1])
    requires forall i :: 0 <= i < |before| ==> PairedAt(before + us, i)
    ensures Paired(before + us) <==> Paired(us)
  {
    var all := before + us;
    forall i | 0 <= i < |us| ensures PairedAt(all, |before| + i) <==> PairedAt(us, i) {
      Shift(before, us, i);
    }
    hide PairedAt;
    if Paired(us) {
      forall j | 0 <= j < |all| ensures PairedAt(all, j) {
        if j >= |before| {
          assert PairedAt(us, j - |before|);
        }
      }
    }
  }

  lemma PairedPlain(u: Unit, us: seq<Unit>)
    requires !High(u) && !Low(u)
    ensures Paired([u] + us) <==> Paired(us)
  {
    assert ([u] + us)[0] == u;
    PairedSkip([u], us);
  }

  lemma PairedPair(u: Unit, v: Unit, us: seq<Unit>)
    requires High(u) && Low(v)
    ensures Paired([u, v] + us) <==> Paired(us)
  {
    var all := [u, v] + us;
    assert all[0] == u && all[1] == v;
    assert PairedAt(all, 0) && PairedAt(all, 1);
    PairedSkip([u, v], us);
  }

  lemma PairedFirst(us: seq<Unit>)
    requires us != []
    ensures Low(us[0]) ==> !Paired(us)
    ensures High(us[0]) && (|us| == 1 || !Low(us[1])) ==> !Paired(us)
  {
    assert PairedAt(us, 0) <== Paired(us);
  }

  lemma PlainStep(s: seq<byte>, quoted: bool, k: nat)
    requires k == 1 ==> s != [] && (s[0] == QUOTE || !quoted || s[0] != BACKSLASH)
    requires k == 2 ==> |s| >= 2 && s[0] == BACKSLASH && quoted && s[1] != U
    requires k == 6 ==> |s| >= 6 && s[0] == BACKSLASH && quoted && s[1] == U && Hex4(s[2..6])
                        && !(0xD800 <= Value(s[2..6]) <= 0xDFFF)
    requires k == 1 || k == 2 || k == 6
    ensures Sound(s, quoted) <==> Sound(s[k..], quoted != (s[0] == QUOTE))
  {
    var rest := Cut(s[k..], quoted != (s[0] == QUOTE));
    if rest.Some? {
      PairedPlain(Cut(s, quoted).value[0], rest.value);
    }
  }

  lemma LowStep(s: seq<byte>)
    requires |s| >= 6 && s[0] == BACKSLASH && s[1] == U && Hex4(s[2..6]) && 0xDC00 <= Value(s[2..6]) <= 0xDFFF
    ensures !Sound(s, true)
  {
    if Cut(s, true).Some? {
      PairedFirst(Cut(s, true).value);
    }
  }

  /** An escape that is not complete. */
  lemma Stuck(s: seq<byte>)
    requires s != [] && s[0] == BACKSLASH
    ensures |s| < 2 || (s[1] == U && (|s| < 6 || !Hex4(s[2..6]))) ==> !Sound(s, true)
  {
  }

  predicate LowAhead(s: seq<byte>) {
    |s| >= 6 && s[0] == BACKSLASH && s[1] == U && Hex4(s[2..6]) && 0xDC00 <= Value(s[2..6]) <= 0xDFFF
  }

  lemma PairStep(s: seq<byte>, u: Unit, v: Unit, tail: Option<seq<Unit>>)
    requires High(u) && Low(v) && Cut(s, true) == Cons(u, Cons(v, tail))
    ensures Sound(s, true) <==> tail.Some? && Paired(tail.value)
  {
    hide Cut, High, Low;
    if tail.Some? {
      PairedPair(u, v, tail.value);
      assert [u] + ([v] + tail.value) == [u, v] + tail.value;
    }
  }

  lemma HighStep(s: seq<byte>)
    requires |s| >= 6 && s[0] == BACKSLASH && s[1] == U && Hex4(s[2..6]) && 0xD800 <= Value(s[2..6]) <= 0xDBFF
    ensures if LowAhead(s[6..]) then Sound(s, true) <==> Sound(s[12..], true) else !Sound(s, true)
  {
    var rest, u := s[6..], Unicode(s[2..6]);
    assert Cut(s, true) == Cons(u, Cut(rest, true));
    if LowAhead(rest) {
      assert rest[6..] == s[12..];
      var v := Unicode(rest[2..6]);
      assert Cut(rest, true) == Cons(v, Cut(s[12..], true));
      PairStep(s, u, v, Cut(s[12..], true));
    } else if Cut(s, true).Some? {
      HighAlone(s);
    }
    hide Cut;
  }

  lemma HighAlone(s: seq<byte>)
    requires |s| >= 6 && s[0] == BACKSLASH && s[1] == U && Hex4(s[2..6]) && 0xD800 <= Value(s[2..6]) <= 0xDBFF
    requires !LowAhead(s[6..]) && Cut(s, true).Some?
    ensures !Paired(Cut(s, true).value)
  {
    PairedFirst(Cut(s, true).value);
    hide Paired;
  }

  // the same steps at a position of the raw text

  ghost predicate SoundAt(raw: seq<byte>, i: nat, quoted: bool)
    requires i <= |raw|
  {
    Sound(raw[i..], quoted)
  }

  lemma PlainAt(raw: seq<byte>, i: nat, quoted: bool, k: nat)
    requires i + k <= |raw|
    requires k == 1 ==> raw[i] == QUOTE || !quoted || raw[i] != BACKSLASH
    requires k == 2 ==> raw[i] == BACKSLASH && quoted && raw[i + 1] != U
    requires k == 6 ==> raw[i] == BACKSLASH && quoted && raw[i + 1] == U && Hex4(raw[i + 2..i + 6])
                        && !(0xD800 <= Value(raw[i + 2..i + 6]) <= 0xDFFF)
    requires k == 1 || k == 2 || k == 6
    ensures SoundAt(raw, i, quoted) <==> SoundAt(raw, i + k, quoted != (raw[i] == QUOTE))
  {
    hide Sound, Hex4, Value;
    var s := raw[i..];
    if k == 6 {
      assert s[2..6] == raw[i + 2..i + 6];
    }
    PlainStep(s, quoted, k);
    assert s[k..] == raw[i + k..];
  }

  lemma StuckAt(raw: seq<byte>, i: nat)
    requires i < |raw| && raw[i] == BACKSLASH
    ensures i + 1 == |raw| ==> !SoundAt(raw, i, true)
    ensures i + 1 < |raw| && raw[i + 1] == U && (i + 6 > |raw| || !Hex4(raw[i + 2..i + 6])) ==> !SoundAt(raw, i, true)
  {
    hide Sound, Hex4;
    Stuck(raw[i..]);
    if i + 6 <= |raw| {
      assert raw[i..][2..6] == raw[i + 2..i + 6];
    }
  }

  lemma SurrogateAt(raw: seq<byte>, i: nat)
    requires i + 6 <= |raw| && raw[i] == BACKSLASH && raw[i + 1] == U && Hex4(raw[i + 2..i + 6])
    ensures 0xDC00 <= Value(raw[i + 2..i + 6]) <= 0xDFFF ==> !SoundAt(raw, i, true)
    ensures 0xD800 <= Value(raw[i + 2..i + 6]) <= 0xDBFF ==>
      if i + 12 <= |raw| && raw[i + 6] == BACKSLASH && raw[i + 7] == U && Hex4(raw[i + 8..i + 12])
         && 0xDC00 <= Value(raw[i + 8..i + 12]) <= 0xDFFF
      then SoundAt(raw, i, true) <==> SoundAt(raw, i + 12, true) else !SoundAt(raw, i, true)
  {
    hide Sound, Hex4, Value;
    var s := raw[i..];
    assert s[2..6] == raw[i + 2..i + 6];
    if i + 12 <= |raw| {
      assert s[6..][2..6] == raw[i + 8..i + 12] && s[12..] == raw[i + 12..];
    }
    if 0xDC00 <= Value(raw[i + 2..i + 6]) <= 0xDFFF {
      LowStep(s);
    } else if 0xD800 <= Value(raw[i + 2..i + 6]) <= 0xDBFF {
      HighStep(s);
    }
  }

  method ValidateSurrogates(raw: seq<byte>) returns (ok: bool)
    ensures ok <==> exists us :: Complete(us, false) && Paired(us) && Spell(us) == raw
  {
    ok := Scan(raw);
    assert raw[0..] == raw;
    if Sound(raw, false) {
      SpellCut(raw, false);
    }
    forall us | Complete(us, false) && Paired(us) && Spell(us) == raw ensures ok {
      CutSpell(us, false);
    }
  }

  /** The scanner itself, with its index jumps. */
  method Scan(raw: seq<byte>) returns (ok: bool)
    ensures ok <==> SoundAt(raw, 0, false)
  {
    AtEnd(raw);
    hide SoundAt, Value, Hex4;
    var quoted := false;
    var i := 0;
    while i < |raw|
      invariant 0 <= i <= |raw|
      invariant SoundAt(raw, 0, false) <==> SoundAt(raw, i, quoted)
    {
      if raw[i] == QUOTE {
        PlainAt(raw, i, quoted, 1);
        quoted := !quoted;
        i := i + 1;
        continue;
      }
      if !quoted || raw[i] != BACKSLASH {
        PlainAt(raw, i, quoted, 1);
        i := i + 1;
        continue;
      }
      StuckAt(raw, i);
      i := i + 1;
      if i >= |raw| {
        return false;
      }
      if raw[i] != U {
        PlainAt(raw, i - 1, quoted, 2);
        i := i + 1;
        continue;
      }
      if i + 4 >= |raw| {
        return false;
      }
      var value := ParseHex(raw[i + 1..i + 5]);
      if value == None {
        return false;
      }
      SurrogateAt(raw, i - 1);
      i := i + 4;
      if 0xDC00 <= value.value <= 0xDFFF {
        return false;
      }
      if 0xD800 <= value.value <= 0xDBFF {
        if i + 6 >= |raw| || raw[i + 1] != BACKSLASH || raw[i + 2] != U {
          return false;
        }
        var low := ParseHex(raw[i + 3..i + 7]);
        if low == None || low.value < 0xDC00 || low.value > 0xDFFF {
          return false;
        }
        i := i + 6;
      } else {
        PlainAt(raw, i - 5, quoted, 6);
      }
      i := i + 1;
    }
    ok := true;
  }

  lemma AtEnd(raw: seq<byte>)
    ensures SoundAt(raw, |raw|, false) && SoundAt(raw, |raw|, true)
  {
  }

  // ----- the Python probe -----

  /** The characters json.loads makes of the pieces: a high escape joins a low one right after it, any other escape
      stands for its own value; text outside escapes is valid UTF-8 and holds no surrogates. */
  function Decoded(us: seq<Unit>): seq<nat> {
    if us == [] then []
    else if us[0].Unicode? && |us[0].h| == 4 then
      if High(us[0]) && |us| > 1 && Low(us[1]) then
        [0x10000 + (Value(us[0].h) - 0xD800) * 0x400 + (Value(us[1].h) - 0xDC00)] + Decoded(us[2..])
      else [Value(us[0].h)] + Decoded(us[1..])
    else [0] + Decoded(us[1..])
  }

  predicate NoSurrogate(cs: seq<nat>) {
    forall i :: 0 <= i < |cs| ==> !(0xD800 <= cs[i] <= 0xDFFF)
  }

  lemma NoSurrogateCons(c: nat, cs: seq<nat>)
    ensures NoSurrogate([c] + cs) <==> !(0xD800 <= c <= 0xDFFF) && NoSurrogate(cs)
  {
    var all := [c] + cs;
    assert all[0] == c && forall i :: 0 <= i < |cs| ==> cs[i] == all[i + 1];
    if NoSurrogate(all) {
      forall i | 0 <= i < |cs| ensures !(0xD800 <= cs[i] <= 0xDFFF) {
        assert all[i + 1] == cs[i];
      }
    }
  }

  lemma {:induction false} PairedIffDecoded(us: seq<Unit>)
    ensures Paired(us) <==> NoSurrogate(Decoded(us))
  {
    if us != [] {
      PairedFirst(us);
      if High(us[0]) && |us| > 1 && Low(us[1]) {
        assert us == [us[0], us[1]] + us[2..];
        PairedPair(us[0], us[1], us[2..]);
        PairedIffDecoded(us[2..]);
        NoSurrogateCons(Decoded(us)[0], Decoded(us[2..]));
      } else {
        assert us == [us[0]] + us[1..];
        PairedIffDecoded(us[1..]);
        NoSurrogateCons(Decoded(us)[0], Decoded(us[1..]));
        if !High(us[0]) && !Low(us[0]) {
          PairedPlain(us[0], us[1..]);
        }
      }
    }
  }

  /** On text whose escapes are complete, as in all well-formed JSON, the byte scan agrees with the probe's check. */
  lemma ProbeAgrees(us: seq<Unit>)
    requires Complete(us, false)
    ensures Sound(Spell(us), false) <==> NoSurrogate(Decoded(us))
  {
    CutSpell(us, false);
    PairedIffDecoded(us);
  }

  // ----- what the digits of an escape spell -----

  /** The hexadecimal digit for d, in either case. */
  function Digit(d: nat, upper: bool): byte
    requires d < 16
  {
    (if upper then "0123456789ABCDEF" else "0123456789abcdef")[d] as int
  }

  /** n as four hexadecimal digits, the i-th in upper case if cases[i]. */
  function Printed(n: nat, cases: seq<bool>): seq<byte>
    requires n < 0x1_0000 && |cases| == 4
  {
    [Digit(n / 0x1000, cases[0]), Digit(n / 0x100 % 16, cases[1]), Digit(n / 0x10 % 16, cases[2]), Digit(n % 16, cases[3])]
  }

  lemma DigitRead(d: nat, upper: bool)
    requires d < 16
    ensures IsHex(Digit(d, upper)) && HexDigit(Digit(d, upper)) == d
  {
  }

  /** Every hexadecimal digit is one of those. */
  lemma DigitPrinted(b: byte) returns (upper: bool)
    requires IsHex(b)
    ensures HexDigit(b) < 16 && b == Digit(HexDigit(b), upper)
  {
    upper := 0x41 <= b <= 0x46;
  }

  /** Reading the four digits of an escape inverts printing them, in any mix of cases. */
  lemma ParsePrinted(n: nat, cases: seq<bool>)
    requires n < 0x1_0000 && |cases| == 4
    ensures ParseHex(Printed(n, cases)) == Some(n)
  {
    DigitRead(n / 0x1000, cases[0]);
    DigitRead(n / 0x100 % 16, cases[1]);
    DigitRead(n / 0x10 % 16, cases[2]);
    DigitRead(n % 16, cases[3]);
    hide Digit, HexDigit, IsHex;
    FourDigits(n);
  }

  lemma FourDigits(n: nat)
    requires n < 0x1_0000
    ensures ((n / 0x1000 * 16 + n / 0x100 % 16) * 16 + n / 0x10 % 16) * 16 + n % 16 == n
  {
    assert n / 0x100 == n / 0x1000 * 16 + n / 0x100 % 16;
    assert n / 0x10 == n / 0x100 * 16 + n / 0x10 % 16;
  }

  lemma Quarters(a: nat, b: nat, c: nat, d: nat)
    requires a < 16 && b < 16 && c < 16 && d < 16
    ensures var n := ((a * 16 + b) * 16 + c) * 16 + d;
            n < 0x1_0000 && n / 0x1000 == a && n / 0x100 % 16 == b && n / 0x10 % 16 == c && n % 16 == d
  {
    var n := ((a * 16 + b) * 16 + c) * 16 + d;
    assert n / 0x10 == (a * 16 + b) * 16 + c;
    assert n / 0x100 == a * 16 + b;
  }

  /** And whatever is read is a printing of the value read: every other text of four bytes is refused. */
  lemma ParsedIsPrinted(h: seq<byte>) returns (cases: seq<bool>)
    requires |h| == 4 && ParseHex(h).Some?
    ensures |cases| == 4 && ParseHex(h).value < 0x1_0000 && h == Printed(ParseHex(h).value, cases)
  {
    var ua := DigitPrinted(h[0]);
    var ub := DigitPrinted(h[1]);
    var uc := DigitPrinted(h[2]);
    var ud := DigitPrinted(h[3]);
    cases := [ua, ub, uc, ud];
    var a, b, c, d := HexDigit(h[0]), HexDigit(h[1]), HexDigit(h[2]), HexDigit(h[3]);
    Quarters(a, b, c, d);
    var n := ((a * 16 + b) * 16 + c) * 16 + d;
    assert ParseHex(h) == Some(n);
    hide HexDigit, IsHex, Digit, ParseHex;
    assert h == [h[0], h[1], h[2], h[3]];
  }

  /** The JSON string that holds these pieces alone. */
  function Quoted(us: seq<Unit>): seq<Unit> { [Quote] + us + [Quote] }

  function HighOf(c: nat): nat
    requires 0x10000 <= c <= 0x10FFFF
  {
    0xD800 + (c - 0x10000) / 0x400
  }

  function LowOf(c: nat): nat
    requires 0x10000 <= c <= 0x10FFFF
  {
    0xDC00 + (c - 0x10000) % 0x400
  }

  lemma QuotedComplete(us: seq<Unit>)
    requires forall i :: 0 <= i < |us| ==> UnitOk(us[i], true) && !us[i].Quote?
    ensures Complete(Quoted(us), false)
  {
    var all := Quoted(us);
    assert all[1..] == us + [Quote];
    hide UnitOk;
    CompleteTail(us);
    assert UnitOk(Quote, false);
  }

  lemma {:induction false} CompleteTail(us: seq<Unit>)
    requires forall i :: 0 <= i < |us| ==> UnitOk(us[i], true) && !us[i].Quote?
    ensures Complete(us + [Quote], true)
  {
    var all := us + [Quote];
    if us != [] {
      assert all[1..] == us[1..] + [Quote];
      CompleteTail(us[1..]);
    } else {
      assert all[1..] == [];
    }
  }

  lemma DecodedPair(u: Unit, v: Unit)
    requires High(u) && Low(v)
    ensures Decoded(Quoted([u, v])) == [0, 0x10000 + (Value(u.h) - 0xD800) * 0x400 + (Value(v.h) - 0xDC00), 0]
  {
    hide Value;
    var us := Quoted([u, v]);
    assert us[0] == Quote && us[1..] == [u, v, Quote];
    assert [u, v, Quote][2..] == [Quote] && [Quote][1..] == [];
    assert Decoded([Quote]) == [0];
    var c: nat := 0x10000 + (Value(u.h) - 0xD800) * 0x400 + (Value(v.h) - 0xDC00);
    assert Decoded([u, v, Quote]) == [c] + Decoded([Quote]);
    assert Decoded(us) == [0] + Decoded([u, v, Quote]);
  }

  lemma QuotedPair(u: Unit, v: Unit)
    requires UnitOk(u, true) && UnitOk(v, true) && High(u) && Low(v)
    ensures SoundAt(Spell(Quoted([u, v])), 0, false)
    ensures Decoded(Quoted([u, v])) == [0, 0x10000 + (Value(u.h) - 0xD800) * 0x400 + (Value(v.h) - 0xDC00), 0]
  {
    QuotedComplete([u, v]);
    DecodedPair(u, v);
    hide Value, Decoded;
    var us := Quoted([u, v]);
    assert us == [Quote, u, v, Quote];
    hide High, Low, UnitOk;
    assert PairedAt(us, 0) && PairedAt(us, 1) && PairedAt(us, 2) && PairedAt(us, 3) by {
      assert !High(Quote) && !Low(Quote) && !Low(u) && !High(v) by {
        Apart(u, v);
      }
    }
    SoundWhole(us);
  }

  lemma Apart(u: Unit, v: Unit)
    requires High(u) && Low(v)
    ensures !Low(u) && !High(v) && !High(Quote) && !Low(Quote)
  {
  }

  /** The escaped pair of any code point above 0xFFFF passes, in any mix of cases, and stands for that code point. */
  lemma PairPasses(c: nat, first: seq<bool>, second: seq<bool>)
    requires 0x10000 <= c <= 0x10FFFF && |first| == 4 && |second| == 4
    ensures var us := Quoted([Unicode(Printed(HighOf(c), first)), Unicode(Printed(LowOf(c), second))]);
            SoundAt(Spell(us), 0, false) && Decoded(us) == [0, c, 0]
  {
    var u, v := Unicode(Printed(HighOf(c), first)), Unicode(Printed(LowOf(c), second));
    ParsePrinted(HighOf(c), first);
    ParsePrinted(LowOf(c), second);
    hide Printed, Value, Hex4, Decoded, SoundAt, Spell;
    QuotedPair(u, v);
  }

  /** A surrogate escape on its own never passes, in any mix of cases. */
  lemma LoneFails(n: nat, cases: seq<bool>)
    requires 0xD800 <= n <= 0xDFFF && |cases| == 4
    ensures !SoundAt(Spell(Quoted([Unicode(Printed(n, cases))])), 0, false)
  {
    var u := Unicode(Printed(n, cases));
    ParsePrinted(n, cases);
    hide Printed, Value, Hex4;
    assert UnitOk(u, true);
    QuotedComplete([u]);
    var us := Quoted([u]);
    SoundWhole(us);
    assert us[1] == u && us[0] == Quote && us[2] == Quote;
    assert !PairedAt(us, 1);
    hide PairedAt;
  }

  lemma SoundWhole(us: seq<Unit>)
    requires Complete(us, false)
    ensures SoundAt(Spell(us), 0, false) <==> Paired(us)
  {
    CutSpell(us, false);
    assert Spell(us)[0..] == Spell(us);
  }
}
