/** The recursive token walkers: walkJSON (protocol.go), checkAdapterJSONValue (adapters.go), and the Python probe's
    checks of the decoded value (interop/python_probe.py). */
module JsonTokens {
  import opened Bytes

  datatype Token = Delim(c: char) | Text(text: string) | Null | Other

  /** A JSON value as a tree; members keep their order and may repeat a key. */
  datatype Value = NullValue | Scalar | Words(text: string) | List(items: seq<Value>) | Object(members: seq<Member>)
  datatype Member = Member(key: string, value: Value)

  /** The tokens a decoder yields for a value. */
  function Tokens(v: Value): (ts: seq<Token>)
    ensures ts != []
  {
    match v
    case NullValue => [Null]
    case Scalar => [Other]
    case Words(text) => [Text(text)]
    case List(items) => [Delim('[')] + ItemTokens(items) + [Delim(']')]
    case Object(members) => [Delim('{')] + MemberTokens(members) + [Delim('}')]
  }

  function ItemTokens(items: seq<Value>): seq<Token> {
    if items == [] then [] else Tokens(items[0]) + ItemTokens(items[1..])
  }

  function MemberTokens(ms: seq<Member>): seq<Token> {
    if ms == [] then [] else [Text(ms[0].key)] + Tokens(ms[0].value) + MemberTokens(ms[1..])
  }

  /** decoder.More: another element follows in the current container. */
  predicate More(input: seq<Token>) {
    input != [] && input[0] != Delim(']') && input[0] != Delim('}')
  }

  class Decoder {
    var rest: seq<Token>

    constructor (tokens: seq<Token>)
      ensures rest == tokens
    {
      rest := tokens;
    }

    method HasMore() returns (more: bool)
      ensures more <==> More(rest)
    {
      more := rest != [] && rest[0] != Delim(']') && rest[0] != Delim('}');
    }

    method Next() returns (token: Option<Token>)
      modifies this
      ensures old(rest) == [] ==> token == None && rest == []
      ensures old(rest) != [] ==> token == Some(old(rest)[0]) && rest == old(rest)[1..]
    {
      if rest == [] {
        return None;
      }
      token := Some(rest[0]);
      rest := rest[1..];
    }
  }

  // ----- walkJSON -----

  const MAX_DEPTH := 16

  /** walkJSON on any token stream: what is left after the value, if it is accepted. */
  function Walk(token: Token, input: seq<Token>, depth: nat): (r: Option<seq<Token>>)
    ensures r.Some? ==> |r.value| <= |input|
    decreases |input|, 1
  {
    if !token.Delim? then Some(input)
    else if depth > MAX_DEPTH then None
    else if token.c == '{' then WalkMembers(input, depth, {})
    else if token.c == '[' then WalkItems(input, depth)
    else None
  }

  function WalkMembers(input: seq<Token>, depth: nat, keys: set<string>): (r: Option<seq<Token>>)
    ensures r.Some? ==> |r.value| <= |input|
    decreases |input|, 0
  {
    if !More(input) then Ended(input, '}')
    else if !input[0].Text? || input[0].text in keys || |input| < 2 then None
    else
      var r := Walk(input[1], input[2..], depth + 1);
      if r == None then None else WalkMembers(r.value, depth, keys + {input[0].text})
  }

  function WalkItems(input: seq<Token>, depth: nat): (r: Option<seq<Token>>)
    ensures r.Some? ==> |r.value| <= |input|
    decreases |input|, 0
  {
    if !More(input) then Ended(input, ']')
    else
      var r := Walk(input[0], input[1..], depth + 1);
      if r == None then None else WalkItems(r.value, depth)
  }

  function Ended(input: seq<Token>, c: char): Option<seq<Token>> {
    if input != [] && input[0] == Delim(c) then Some(input[1..]) else None
  }

  method WalkJson(d: Decoder, token: Token, depth: nat) returns (ok: bool)
    modifies d
    ensures var w := Walk(token, old(d.rest), depth); (ok <==> w.Some?) && (ok ==> d.rest == w.value)
    decreases |d.rest|
  {
    if !token.Delim? {
      return true;
    }
    if depth > MAX_DEPTH {
      return false;
    }
    match token.c
    case '{' =>
      var keys: set<string> := {};
      var more := d.HasMore();
      while more
        invariant |d.rest| <= |old(d.rest)| && (more <==> More(d.rest))
        invariant WalkMembers(old(d.rest), depth, {}) == WalkMembers(d.rest, depth, keys)
        decreases |d.rest|
      {
        var key := d.Next();
        if !key.value.Text? || key.value.text in keys {
          return false;
        }
        keys := keys + {key.value.text};
        var value := d.Next();
        if value == None {
          return false;
        }
        ok := WalkJson(d, value.value, depth + 1);
        if !ok {
          return;
        }
        more := d.HasMore();
      }
      var end := d.Next();
      ok := end == Some(Delim('}'));
    case '[' =>
      var more := d.HasMore();
      while more
        invariant |d.rest| <= |old(d.rest)| && (more <==> More(d.rest))
        invariant WalkItems(old(d.rest), depth) == WalkItems(d.rest, depth)
        decreases |d.rest|
      {
        var value := d.Next();
        ok := WalkJson(d, value.value, depth + 1);
        if !ok {
          return;
        }
        more := d.HasMore();
      }
      var end := d.Next();
      ok := end == Some(Delim(']'));
    case _ =>
      ok := false;
  }

  function Max(a: nat, b: nat): nat { if a < b then b else a }

  /** How deep containers nest: 0 for a scalar, 1 for a container of scalars. */
  function Nesting(v: Value): nat {
    match v
    case List(items) => 1 + ItemNesting(items)
    case Object(members) => 1 + MemberNesting(members)
    case _ => 0
  }

  function ItemNesting(items: seq<Value>): nat {
    if items == [] then 0 else Max(Nesting(items[0]), ItemNesting(items[1..]))
  }

  function MemberNesting(ms: seq<Member>): nat {
    if ms == [] then 0 else Max(Nesting(ms[0].value), MemberNesting(ms[1..]))
  }

  predicate DistinctKeys(ms: seq<Member>) {
    forall i, j :: 0 <= i < j < |ms| ==> ms[i].key != ms[j].key
  }

  /** No object anywhere in the value repeats a key. */
  predicate UniqueKeys(v: Value) {
    match v
    case List(items) => forall i :: 0 <= i < |items| ==> UniqueKeys(items[i])
    case Object(ms) => DistinctKeys(ms) && forall i :: 0 <= i < |ms| ==> UniqueKeys(ms[i].value)
    case _ => true
  }

  /** Walking the tokens of a value: consumed exactly and accepted, or refused. */
  function Verdict(good: bool, rest: seq<Token>): Option<seq<Token>> {
    if good then Some(rest) else None
  }

  predicate Walkable(v: Value, depth: nat) {
    (Nesting(v) > 0 ==> depth + Nesting(v) <= MAX_DEPTH + 1) && UniqueKeys(v)
  }

  predicate ItemsWalkable(items: seq<Value>, depth: nat) {
    forall i :: 0 <= i < |items| ==> Walkable(items[i], depth)
  }

  predicate MembersWalkable(ms: seq<Member>, depth: nat, keys: set<string>) {
    && (forall i :: 0 <= i < |ms| ==> ms[i].key !in keys && Walkable(ms[i].value, depth))
    && DistinctKeys(ms)
  }

  lemma {:induction false} ItemNestingIs(items: seq<Value>, bound: nat)
    ensures ItemNesting(items) <= bound <==> forall i :: 0 <= i < |items| ==> Nesting(items[i]) <= bound
  {
    if items != [] {
      ItemNestingIs(items[1..], bound);
      assert forall i :: 1 <= i < |items| ==> items[i] == items[1..][i - 1];
      if forall i :: 0 <= i < |items| ==> Nesting(items[i]) <= bound {
        forall i | 0 <= i < |items[1..]| ensures Nesting(items[1..][i]) <= bound {
          assert items[1..][i] == items[i + 1];
        }
      }
    }
  }

  lemma {:induction false} MemberNestingIs(ms: seq<Member>, bound: nat)
    ensures MemberNesting(ms) <= bound <==> forall i :: 0 <= i < |ms| ==> Nesting(ms[i].value) <= bound
  {
    if ms != [] {
      MemberNestingIs(ms[1..], bound);
      assert forall i :: 1 <= i < |ms| ==> ms[i] == ms[1..][i - 1];
      if forall i :: 0 <= i < |ms| ==> Nesting(ms[i].value) <= bound {
        forall i | 0 <= i < |ms[1..]| ensures Nesting(ms[1..][i].value) <= bound {
          assert ms[1..][i] == ms[i + 1];
        }
      }
    }
  }

  lemma ListWalkable(items: seq<Value>, depth: nat)
    ensures Walkable(List(items), depth) <==> depth <= MAX_DEPTH && ItemsWalkable(items, depth + 1)
  {
    if depth <= MAX_DEPTH {
      ItemNestingIs(items, MAX_DEPTH - depth);
    }
  }

  lemma ObjectWalkable(ms: seq<Member>, depth: nat)
    ensures Walkable(Object(ms), depth) <==> depth <= MAX_DEPTH && MembersWalkable(ms, depth + 1, {})
  {
    if depth <= MAX_DEPTH {
      MemberNestingIs(ms, MAX_DEPTH - depth);
    }
  }

  /** On the tokens of any value, walkJSON consumes exactly that value, and accepts it exactly when its containers
      nest within the depth that is left and no object repeats a key. */
  lemma {:induction false} WalkValue(v: Value, depth: nat, rest: seq<Token>)
    ensures Walk(Tokens(v)[0], Tokens(v)[1..] + rest, depth) == Verdict(Walkable(v, depth), rest)
    decreases v, 1
  {
    match v
    case List(items) =>
      ListWalkable(items, depth);
      Regroup(Delim('['), ItemTokens(items), Delim(']'), rest);
      WalkListed(items, depth, rest);
    case Object(ms) =>
      ObjectWalkable(ms, depth);
      Regroup(Delim('{'), MemberTokens(ms), Delim('}'), rest);
      WalkListedMembers(ms, depth, {}, rest);
    case _ =>
      assert Tokens(v)[1..] + rest == rest;
  }

  lemma Regroup(open_: Token, inner: seq<Token>, close: Token, rest: seq<Token>)
    ensures var ts := [open_] + inner + [close]; ts[0] == open_ && ts[1..] + rest == inner + ([close] + rest)
  {
  }

  lemma First(v: Value, after: seq<Token>)
    ensures var ts := Tokens(v) + after;
            ts[0] == Tokens(v)[0] && ts[1..] == Tokens(v)[1..] + after && More(ts)
  {
  }

  lemma {:induction false} WalkListed(items: seq<Value>, depth: nat, rest: seq<Token>)
    ensures WalkItems(ItemTokens(items) + ([Delim(']')] + rest), depth) == Verdict(ItemsWalkable(items, depth + 1), rest)
    decreases items, 0
  {
    var close := [Delim(']')] + rest;
    if items == [] {
      assert ItemTokens(items) + close == close && close[1..] == rest;
    } else {
      var after := ItemTokens(items[1..]) + close;
      assert ItemTokens(items) + close == Tokens(items[0]) + after;
      First(items[0], after);
      WalkValue(items[0], depth + 1, after);
      WalkListed(items[1..], depth, rest);
      ItemsSplit(items, depth + 1);
      hide Tokens, Walk, Walkable, ItemTokens;
    }
  }

  lemma ItemsSplit(items: seq<Value>, depth: nat)
    requires items != []
    ensures ItemsWalkable(items, depth) <==> Walkable(items[0], depth) && ItemsWalkable(items[1..], depth)
  {
    hide Walkable;
    if ItemsWalkable(items[1..], depth) && Walkable(items[0], depth) {
      forall i | 0 <= i < |items| ensures Walkable(items[i], depth) {
        assert i > 0 ==> items[i] == items[1..][i - 1];
      }
    }
  }

  lemma MembersSplit(ms: seq<Member>, depth: nat, keys: set<string>)
    requires ms != []
    ensures MembersWalkable(ms, depth, keys)
       <==> ms[0].key !in keys && Walkable(ms[0].value, depth) && MembersWalkable(ms[1..], depth, keys + {ms[0].key})
  {
    hide Walkable;
    var tail := ms[1..];
    assert forall i :: 0 <= i < |tail| ==> tail[i] == ms[i + 1];
    if ms[0].key !in keys && Walkable(ms[0].value, depth) && MembersWalkable(tail, depth, keys + {ms[0].key}) {
      forall i | 0 <= i < |ms| ensures ms[i].key !in keys && Walkable(ms[i].value, depth) {
        assert i > 0 ==> ms[i] == tail[i - 1];
      }
      forall i, j | 0 <= i < j < |ms| ensures ms[i].key != ms[j].key {
        assert ms[j] == tail[j - 1] && (i > 0 ==> ms[i] == tail[i - 1]);
      }
    }
  }

  lemma {:induction false} WalkListedMembers(ms: seq<Member>, depth: nat, keys: set<string>, rest: seq<Token>)
    ensures WalkMembers(MemberTokens(ms) + ([Delim('}')] + rest), depth, keys)
         == Verdict(MembersWalkable(ms, depth + 1, keys), rest)
    decreases ms, 0
  {
    var close := [Delim('}')] + rest;
    var input := MemberTokens(ms) + close;
    if ms == [] {
      assert input == close && close[1..] == rest;
    } else {
      var after := MemberTokens(ms[1..]) + close;
      var v := ms[0].value;
      assert input == [Text(ms[0].key)] + (Tokens(v) + after);
      assert input[1..] == Tokens(v) + after;
      First(v, after);
      assert input[1] == Tokens(v)[0] && input[2..] == Tokens(v)[1..] + after;
      WalkValue(v, depth + 1, after);
      WalkListedMembers(ms[1..], depth, keys + {ms[0].key}, rest);
      MembersSplit(ms, depth + 1, keys);
      hide Tokens, Walk, Walkable, MemberTokens;
    }
  }

  /** The token part of validateJSON: an object, and nothing after it. */
  method ValidateTokens(tokens: seq<Token>) returns (ok: bool)
    ensures ok <==> tokens != [] && tokens[0] == Delim('{') && Walk(tokens[0], tokens[1..], 1) == Some([])
  {
    var d := new Decoder(tokens);
    var first := d.Next();
    if first != Some(Delim('{')) {
      return false;
    }
    ok := WalkJson(d, first.value, 1);
    if ok {
      var trailing := d.Next();
      ok := trailing == None;
    }
  }

  /** Metadata that is one JSON object passes exactly when it nests at most 16 deep without repeated keys. */
  lemma ObjectPasses(ms: seq<Member>)
    ensures var ts := Tokens(Object(ms));
            ts[0] == Delim('{') && (Walk(ts[0], ts[1..], 1) == Some([]) <==> Nesting(Object(ms)) <= 16 && UniqueKeys(Object(ms)))
  {
    var ts := Tokens(Object(ms));
    WalkValue(Object(ms), 1, []);
    assert ts[1..] + [] == ts[1..];
  }

  // ----- the Python probe -----

  /** unique_object: the pairs as a dictionary, or an error on a repeated key. */
  method UniqueObject<V>(pairs: seq<(string, V)>) returns (result: Option<map<string, V>>)
    ensures result.Some? <==> forall i, j :: 0 <= i < j < |pairs| ==> pairs[i].0 != pairs[j].0
    ensures result.Some? ==> forall i :: 0 <= i < |pairs| ==> pairs[i].0 in result.value && result.value[pairs[i].0] == pairs[i].1
    ensures result.Some? ==> forall k :: k in result.value ==> exists i :: 0 <= i < |pairs| && pairs[i].0 == k
  {
    var dict: map<string, V> := map[];
    for n := 0 to |pairs|
      invariant forall k :: k in dict <==> exists i :: 0 <= i < n && pairs[i].0 == k
      invariant forall i :: 0 <= i < n ==> dict[pairs[i].0] == pairs[i].1
      invariant forall i, j :: 0 <= i < j < n ==> pairs[i].0 != pairs[j].0
    {
      var (key, value) := pairs[n];
      if key in dict {
        return None;
      }
      dict := dict[key := value];
    }
    result := Some(dict);
  }

  /** validate_json_values on values json.loads has built, which it does only when no object repeats a key. */
  predicate ProbeValues(v: Value, depth: nat) {
    match v
    case List(items) => depth <= 16 && forall i :: 0 <= i < |items| ==> ProbeValues(items[i], depth + 1)
    case Object(ms) => depth <= 16 && forall i :: 0 <= i < |ms| ==> ProbeValues(ms[i].value, depth + 1)
    case _ => true
  }

  lemma {:induction false} ProbeNesting(v: Value, depth: nat)
    ensures ProbeValues(v, depth) <==> (Nesting(v) > 0 ==> depth + Nesting(v) <= 17)
  {
    match v
    case List(items) =>
      if depth <= 16 {
        ItemNestingIs(items, 16 - depth);
      }
      forall i | 0 <= i < |items| ensures ProbeValues(items[i], depth + 1) <==> (Nesting(items[i]) > 0 ==> depth + 1 + Nesting(items[i]) <= 17) {
        ProbeNesting(items[i], depth + 1);
      }
    case Object(ms) =>
      if depth <= 16 {
        MemberNestingIs(ms, 16 - depth);
      }
      forall i | 0 <= i < |ms| ensures ProbeValues(ms[i].value, depth + 1) <==> (Nesting(ms[i].value) > 0 ==> depth + 1 + Nesting(ms[i].value) <= 17) {
        ProbeNesting(ms[i].value, depth + 1);
      }
    case _ =>
  }

  /** The Go walker and the probe accept the same objects. */
  lemma ProbeWalksAlike(ms: seq<Member>)
    ensures var ts := Tokens(Object(ms));
            Walk(ts[0], ts[1..], 1) == Some([]) <==> ProbeValues(Object(ms), 1) && UniqueKeys(Object(ms))
  {
    ObjectPasses(ms);
    ProbeNesting(Object(ms), 1);
  }

  // ----- checkAdapterJSONValue -----

  const MAX_LEVELS := 64

  /** The adapter's walker takes its own first token and counts every value, scalars included. */
  function Check(input: seq<Token>, depth: nat): (r: Option<seq<Token>>)
    ensures r.Some? ==> |r.value| < |input|
    decreases |input|, 1
  {
    if depth > MAX_LEVELS || input == [] || input[0].Null? then None
    else if !input[0].Delim? then Some(input[1..])
    else if input[0].c == '{' then CheckMembers(input[1..], depth, {})
    else if input[0].c == '[' then CheckItems(input[1..], depth)
    else None
  }

  function CheckMembers(input: seq<Token>, depth: nat, keys: set<string>): (r: Option<seq<Token>>)
    ensures r.Some? ==> |r.value| <= |input|
    decreases |input|, 0
  {
    if !More(input) then Ended(input, '}')
    else if !input[0].Text? || input[0].text in keys then None
    else
      var r := Check(input[1..], depth + 1);
      if r == None then None else CheckMembers(r.value, depth, keys + {input[0].text})
  }

  function CheckItems(input: seq<Token>, depth: nat): (r: Option<seq<Token>>)
    ensures r.Some? ==> |r.value| <= |input|
    decreases |input|, 2
  {
    if !More(input) then Ended(input, ']')
    else
      var r := Check(input, depth + 1);
      if r == None then None else CheckItems(r.value, depth)
  }

  method CheckAdapterJsonValue(d: Decoder, depth: nat) returns (ok: bool)
    modifies d
    ensures var c := Check(old(d.rest), depth); (ok <==> c.Some?) && (ok ==> d.rest == c.value)
    decreases MAX_LEVELS + 1 - depth
  {
    if depth > MAX_LEVELS {
      return false;
    }
    var token := d.Next();
    if token == None || token.value.Null? {
      return false;
    }
    if !token.value.Delim? {
      return true;
    }
    ghost var start := d.rest;
    var closing;
    match token.value.c {
      case '{' =>
        closing := '}';
        var keys: set<string> := {};
        var more := d.HasMore();
        while more
          invariant more <==> More(d.rest)
          invariant CheckMembers(start, depth, {}) == CheckMembers(d.rest, depth, keys)
          decreases |d.rest|
        {
          var key := d.Next();
          if !key.value.Text? {
            return false;
          }
          if key.value.text in keys {
            return false;
          }
          keys := keys + {key.value.text};
          ok := CheckAdapterJsonValue(d, depth + 1);
          if !ok {
            return;
          }
          more := d.HasMore();
        }
      case '[' =>
        closing := ']';
        var more := d.HasMore();
        while more
          invariant more <==> More(d.rest)
          invariant CheckItems(start, depth) == CheckItems(d.rest, depth)
          decreases |d.rest|
        {
          ok := CheckAdapterJsonValue(d, depth + 1);
          if !ok {
            return;
          }
          more := d.HasMore();
        }
      case _ =>
        return false;
    }
    var end := d.Next();
    ok := end == Some(Delim(closing));
  }

  /** How far below a value its lowest descendant lies. */
  function Height(v: Value): nat {
    match v
    case List(items) => ItemHeight(items)
    case Object(members) => MemberHeight(members)
    case _ => 0
  }

  function ItemHeight(items: seq<Value>): nat {
    if items == [] then 0 else Max(1 + Height(items[0]), ItemHeight(items[1..]))
  }

  function MemberHeight(ms: seq<Member>): nat {
    if ms == [] then 0 else Max(1 + Height(ms[0].value), MemberHeight(ms[1..]))
  }

  predicate NullFree(v: Value) {
    match v
    case NullValue => false
    case List(items) => forall i :: 0 <= i < |items| ==> NullFree(items[i])
    case Object(ms) => forall i :: 0 <= i < |ms| ==> NullFree(ms[i].value)
    case _ => true
  }

  predicate Adaptable(v: Value, depth: nat) {
    depth + Height(v) <= MAX_LEVELS && NullFree(v) && UniqueKeys(v)
  }

  predicate ItemsAdaptable(items: seq<Value>, depth: nat) {
    forall i :: 0 <= i < |items| ==> Adaptable(items[i], depth)
  }

  predicate MembersAdaptable(ms: seq<Member>, depth: nat, keys: set<string>) {
    && (forall i :: 0 <= i < |ms| ==> ms[i].key !in keys && Adaptable(ms[i].value, depth))
    && DistinctKeys(ms)
  }

  lemma {:induction false} ItemHeightIs(items: seq<Value>, bound: nat)
    ensures ItemHeight(items) <= bound <==> forall i :: 0 <= i < |items| ==> Height(items[i]) < bound
  {
    if items != [] {
      ItemHeightIs(items[1..], bound);
      assert forall i :: 1 <= i < |items| ==> items[i] == items[1..][i - 1];
      if forall i :: 0 <= i < |items| ==> Height(items[i]) < bound {
        forall i | 0 <= i < |items[1..]| ensures Height(items[1..][i]) < bound {
          assert items[1..][i] == items[i + 1];
        }
      }
    }
  }

  lemma {:induction false} MemberHeightIs(ms: seq<Member>, bound: nat)
    ensures MemberHeight(ms) <= bound <==> forall i :: 0 <= i < |ms| ==> Height(ms[i].value) < bound
  {
    if ms != [] {
      MemberHeightIs(ms[1..], bound);
      assert forall i :: 1 <= i < |ms| ==> ms[i] == ms[1..][i - 1];
      if forall i :: 0 <= i < |ms| ==> Height(ms[i].value) < bound {
        forall i | 0 <= i < |ms[1..]| ensures Height(ms[1..][i].value) < bound {
          assert ms[1..][i] == ms[i + 1];
        }
      }
    }
  }

  lemma ListAdaptable(items: seq<Value>, depth: nat)
    ensures Adaptable(List(items), depth) <==> depth <= MAX_LEVELS && ItemsAdaptable(items, depth + 1)
  {
    if depth <= MAX_LEVELS {
      ItemHeightIs(items, MAX_LEVELS - depth);
    }
  }

  lemma ObjectAdaptable(ms: seq<Member>, depth: nat)
    ensures Adaptable(Object(ms), depth) <==> depth <= MAX_LEVELS && MembersAdaptable(ms, depth + 1, {})
  {
    if depth <= MAX_LEVELS {
      MemberHeightIs(ms, MAX_LEVELS - depth);
    }
  }

  lemma ItemsAdaptSplit(items: seq<Value>, depth: nat)
    requires items != []
    ensures ItemsAdaptable(items, depth) <==> Adaptable(items[0], depth) && ItemsAdaptable(items[1..], depth)
  {
    hide Adaptable;
    if ItemsAdaptable(items[1..], depth) && Adaptable(items[0], depth) {
      forall i | 0 <= i < |items| ensures Adaptable(items[i], depth) {
        assert i > 0 ==> items[i] == items[1..][i - 1];
      }
    }
  }

  lemma MembersAdaptSplit(ms: seq<Member>, depth: nat, keys: set<string>)
    requires ms != []
    ensures MembersAdaptable(ms, depth, keys)
       <==> ms[0].key !in keys && Adaptable(ms[0].value, depth) && MembersAdaptable(ms[1..], depth, keys + {ms[0].key})
  {
    hide Adaptable;
    var tail := ms[1..];
    assert forall i :: 0 <= i < |tail| ==> tail[i] == ms[i + 1];
    if ms[0].key !in keys && Adaptable(ms[0].value, depth) && MembersAdaptable(tail, depth, keys + {ms[0].key}) {
      forall i | 0 <= i < |ms| ensures ms[i].key !in keys && Adaptable(ms[i].value, depth) {
        assert i > 0 ==> ms[i] == tail[i - 1];
      }
      forall i, j | 0 <= i < j < |ms| ensures ms[i].key != ms[j].key {
        assert ms[j] == tail[j - 1] && (i > 0 ==> ms[i] == tail[i - 1]);
      }
    }
  }

  /** On the tokens of any value: accepted exactly when every node, scalars included, lies at most 64 levels below
      the root, none is null and no object repeats a key; and then exactly that value is consumed. */
  lemma {:induction false} CheckValue(v: Value, depth: nat, rest: seq<Token>)
    ensures Check(Tokens(v) + rest, depth) == Verdict(Adaptable(v, depth), rest)
    decreases v, 1
  {
    var input := Tokens(v) + rest;
    assert input[0] == Tokens(v)[0];
    match v
    case List(items) =>
      ListAdaptable(items, depth);
      Regroup(Delim('['), ItemTokens(items), Delim(']'), rest);
      assert input[1..] == ItemTokens(items) + ([Delim(']')] + rest);
      CheckListed(items, depth, rest);
    case Object(ms) =>
      ObjectAdaptable(ms, depth);
      Regroup(Delim('{'), MemberTokens(ms), Delim('}'), rest);
      assert input[1..] == MemberTokens(ms) + ([Delim('}')] + rest);
      CheckListedMembers(ms, depth, {}, rest);
    case _ =>
      assert input[1..] == rest;
  }

  lemma {:induction false} CheckListed(items: seq<Value>, depth: nat, rest: seq<Token>)
    ensures CheckItems(ItemTokens(items) + ([Delim(']')] + rest), depth) == Verdict(ItemsAdaptable(items, depth + 1), rest)
    decreases items, 0
  {
    var close := [Delim(']')] + rest;
    if items == [] {
      assert ItemTokens(items) + close == close && close[1..] == rest;
    } else {
      var after := ItemTokens(items[1..]) + close;
      assert ItemTokens(items) + close == Tokens(items[0]) + after;
      First(items[0], after);
      CheckValue(items[0], depth + 1, after);
      CheckListed(items[1..], depth, rest);
      ItemsAdaptSplit(items, depth + 1);
      hide Tokens, Check, Adaptable, ItemTokens;
    }
  }

  lemma {:induction false} CheckListedMembers(ms: seq<Member>, depth: nat, keys: set<string>, rest: seq<Token>)
    ensures CheckMembers(MemberTokens(ms) + ([Delim('}')] + rest), depth, keys)
         == Verdict(MembersAdaptable(ms, depth + 1, keys), rest)
    decreases ms, 0
  {
    var close := [Delim('}')] + rest;
    var input := MemberTokens(ms) + close;
    if ms == [] {
      assert input == close && close[1..] == rest;
    } else {
      var after := MemberTokens(ms[1..]) + close;
      Keyed(Text(ms[0].key), Tokens(ms[0].value), MemberTokens(ms[1..]), close);
      hide Tokens, Adaptable;
      assert input[0] == Text(ms[0].key) && input[1..] == Tokens(ms[0].value) + after;
      hide MemberTokens;
      CheckValue(ms[0].value, depth + 1, after);
      CheckListedMembers(ms[1..], depth, keys + {ms[0].key}, rest);
      MembersAdaptSplit(ms, depth + 1, keys);
      hide Check;
    }
  }

  lemma Keyed(key: Token, value: seq<Token>, more: seq<Token>, close: seq<Token>)
    ensures var input := [key] + value + more + close; input[0] == key && input[1..] == value + (more + close)
  {
  }

  // ----- on any token stream: what is accepted is one value -----

  lemma {:induction false} WalkSound(token: Token, input: seq<Token>, depth: nat) returns (v: Value)
    requires Walk(token, input, depth).Some?
    ensures [token] + input == Tokens(v) + Walk(token, input, depth).value
    decreases |input|, 1
  {
    match token {
      case Text(text) => v := Words(text);
      case Null => v := NullValue;
      case Other => v := Scalar;
      case Delim(c) =>
        var rest := Walk(token, input, depth).value;
        if c == '{' {
          var ms := MembersSound(input, depth, {});
          v := Object(ms);
          Enclosed(token, MemberTokens(ms), Delim('}'), rest);
        } else {
          var items := ItemsSound(input, depth);
          v := List(items);
          Enclosed(token, ItemTokens(items), Delim(']'), rest);
        }
    }
  }

  lemma Enclosed(open_: Token, inner: seq<Token>, close: Token, rest: seq<Token>)
    ensures [open_] + (inner + [close] + rest) == [open_] + inner + [close] + rest
  {
  }

  lemma {:induction false} ItemsSound(input: seq<Token>, depth: nat) returns (items: seq<Value>)
    requires WalkItems(input, depth).Some?
    ensures input == ItemTokens(items) + [Delim(']')] + WalkItems(input, depth).value
    decreases |input|, 0
  {
    if !More(input) {
      items := [];
      assert input == [input[0]] + input[1..];
    } else {
      var r := Walk(input[0], input[1..], depth + 1);
      var v := WalkSound(input[0], input[1..], depth + 1);
      var more := ItemsSound(r.value, depth);
      items := [v] + more;
      assert input == [input[0]] + input[1..];
      assert items[1..] == more;
      hide Walk, Tokens;
      assert ItemTokens(items) == Tokens(v) + ItemTokens(more);
    }
  }

  lemma {:induction false} MembersSound(input: seq<Token>, depth: nat, keys: set<string>) returns (ms: seq<Member>)
    requires WalkMembers(input, depth, keys).Some?
    ensures input == MemberTokens(ms) + [Delim('}')] + WalkMembers(input, depth, keys).value
    decreases |input|, 0
  {
    if !More(input) {
      ms := [];
      assert input == [input[0]] + input[1..];
    } else {
      var r := Walk(input[1], input[2..], depth + 1);
      var v := WalkSound(input[1], input[2..], depth + 1);
      var more := MembersSound(r.value, depth, keys + {input[0].text});
      ms := [Member(input[0].text, v)] + more;
      assert input == [input[0]] + ([input[1]] + input[2..]);
      assert ms[1..] == more;
      hide Walk, Tokens;
      assert MemberTokens(ms) == [Text(input[0].text)] + Tokens(v) + MemberTokens(more);
    }
  }

  /** walkJSON accepts a token stream and leaves rest exactly when the stream is one value followed by rest, and that
      value nests within the depth left without repeating a key in an object. */
  lemma WalkIff(token: Token, input: seq<Token>, depth: nat, rest: seq<Token>)
    ensures Walk(token, input, depth) == Some(rest)
       <==> exists v :: [token] + input == Tokens(v) + rest && Walkable(v, depth)
  {
    hide Walk, Walkable, Tokens;
    if Walk(token, input, depth) == Some(rest) {
      var v := WalkSound(token, input, depth);
      SameStream(token, input, Tokens(v), rest);
      WalkValue(v, depth, rest);
    }
    forall v | [token] + input == Tokens(v) + rest && Walkable(v, depth) ensures Walk(token, input, depth) == Some(rest) {
      SameStream(token, input, Tokens(v), rest);
      WalkValue(v, depth, rest);
    }
  }

  lemma SameStream(token: Token, input: seq<Token>, ts: seq<Token>, rest: seq<Token>)
    requires ts != [] && [token] + input == ts + rest
    ensures token == ts[0] && input == ts[1..] + rest
  {
    assert ([token] + input)[0] == (ts + rest)[0];
    assert ([token] + input)[1..] == (ts + rest)[1..];
  }

  /** A token stream is taken as metadata exactly when it is one object, at most 16 deep, that repeats no key. */
  lemma TokensAreObject(tokens: seq<Token>)
    ensures tokens != [] && tokens[0] == Delim('{') && Walk(tokens[0], tokens[1..], 1) == Some([])
       <==> exists ms :: tokens == Tokens(Object(ms)) && Nesting(Object(ms)) <= 16 && UniqueKeys(Object(ms))
  {
    hide Walk, Nesting, UniqueKeys;
    if tokens != [] && tokens[0] == Delim('{') && Walk(tokens[0], tokens[1..], 1) == Some([]) {
      var v := WalkSound(tokens[0], tokens[1..], 1);
      assert tokens == [tokens[0]] + tokens[1..] && Tokens(v) + [] == Tokens(v);
      assert v.Object?;
      ObjectPasses(v.members);
    }
    forall ms | tokens == Tokens(Object(ms)) && Nesting(Object(ms)) <= 16 && UniqueKeys(Object(ms))
      ensures tokens != [] && tokens[0] == Delim('{') && Walk(tokens[0], tokens[1..], 1) == Some([]) {
      ObjectPasses(ms);
    }
  }

  lemma {:induction false} CheckSound(input: seq<Token>, depth: nat) returns (v: Value)
    requires Check(input, depth).Some?
    ensures input == Tokens(v) + Check(input, depth).value
    decreases |input|, 1
  {
    var rest := Check(input, depth).value;
    assert input == [input[0]] + input[1..];
    match input[0] {
      case Text(text) => v := Words(text);
      case Null => v := NullValue;
      case Other => v := Scalar;
      case Delim(c) =>
        if c == '{' {
          var ms := CheckedMembers(input[1..], depth, {});
          v := Object(ms);
          Enclosed(input[0], MemberTokens(ms), Delim('}'), rest);
        } else {
          var items := CheckedItems(input[1..], depth);
          v := List(items);
          Enclosed(input[0], ItemTokens(items), Delim(']'), rest);
        }
    }
  }

  lemma {:induction false} CheckedItems(input: seq<Token>, depth: nat) returns (items: seq<Value>)
    requires CheckItems(input, depth).Some?
    ensures input == ItemTokens(items) + [Delim(']')] + CheckItems(input, depth).value
    decreases |input|, 2
  {
    if !More(input) {
      items := [];
      assert input == [input[0]] + input[1..];
    } else {
      var r := Check(input, depth + 1);
      var v := CheckSound(input, depth + 1);
      var more := CheckedItems(r.value, depth);
      items := [v] + more;
      assert items[1..] == more;
      hide Check, Tokens;
      assert ItemTokens(items) == Tokens(v) + ItemTokens(more);
    }
  }

  lemma Prefixed(input: seq<Token>, a: seq<Token>, b: seq<Token>, c: seq<Token>, rest: seq<Token>)
    requires input != [] && input[1..] == a + (b + c + rest)
    ensures input == [input[0]] + a + b + c + rest
  {
  }

  lemma {:induction false} CheckedMembers(input: seq<Token>, depth: nat, keys: set<string>) returns (ms: seq<Member>)
    requires CheckMembers(input, depth, keys).Some?
    ensures input == MemberTokens(ms) + [Delim('}')] + CheckMembers(input, depth, keys).value
    decreases |input|, 0
  {
    if !More(input) {
      ms := [];
      assert input == [input[0]] + input[1..];
    } else {
      var r := Check(input[1..], depth + 1);
      var v := CheckSound(input[1..], depth + 1);
      var more := CheckedMembers(r.value, depth, keys + {input[0].text});
      ms := [Member(input[0].text, v)] + more;
      assert ms[1..] == more;
      hide Check, Tokens;
      assert MemberTokens(ms) == [Text(input[0].text)] + Tokens(v) + MemberTokens(more);
      hide CheckMembers, MemberTokens;
      Prefixed(input, Tokens(v), MemberTokens(more), [Delim('}')], CheckMembers(r.value, depth, keys + {input[0].text}).value);
    }
  }

  /** checkAdapterJSONValue accepts a token stream at the root and leaves rest exactly when the stream is one value
      followed by rest, with every node at most 64 levels down, no null and no repeated key. */
  lemma CheckIff(input: seq<Token>, rest: seq<Token>)
    ensures Check(input, 0) == Some(rest)
       <==> exists v :: input == Tokens(v) + rest && Height(v) <= 64 && NullFree(v) && UniqueKeys(v)
  {
    hide Check, Height, NullFree, UniqueKeys, Tokens;
    if Check(input, 0) == Some(rest) {
      var v := CheckSound(input, 0);
      CheckValue(v, 0, rest);
    }
    forall v | input == Tokens(v) + rest && Height(v) <= 64 && NullFree(v) && UniqueKeys(v)
      ensures Check(input, 0) == Some(rest) {
      CheckValue(v, 0, rest);
    }
  }
}
