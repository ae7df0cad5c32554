/** The viewer's own URI test (NavigationPolicy.cs) and its agreement with uri.go. */
module Viewer {
  import opened Bytes
  import opened Uri

  /** The scan of the text after the authority, as a function of what is left and of the '#' already seen. */
  predicate ScanOk(tail: string, fragments: nat) {
    tail == "" ||
    if tail[0] == '%' then
      |tail| >= 3 && IsHex(tail[1]) && IsHex(tail[2]) && ScanOk(tail[3..], fragments)
    else if tail[0] == '#' then
      fragments == 0 && ScanOk(tail[1..], 1)
    else
      Allowed(tail[0], true) && ScanOk(tail[1..], fragments)
  }

  method ScanTail(tail: string) returns (ok: bool)
    ensures ok <==> TailAccepted(tail)
  {
    ScanAgrees(tail);
    var fragments := 0;
    var i := 0;
    while i < |tail|
      invariant 0 <= i <= |tail| && 0 <= fragments <= 1
      invariant ScanOk(tail, 0) <==> ScanOk(tail[i..], fragments)
    {
      var c := tail[i];
      if c == '%' {
        if i + 2 >= |tail| || !IsHex(tail[i + 1]) || !IsHex(tail[i + 2]) {
          return false;
        }
        assert tail[i..][3..] == tail[i + 3..];
        i := i + 3;
      } else {
        assert tail[i..][1..] == tail[i + 1..];
        if c == '#' {
          fragments := fragments + 1;
          if fragments > 1 {
            return false;
          }
        } else if !Allowed(c, true) {
          return false;
        }
        i := i + 1;
      }
    }
    ok := true;
  }

  /** What ParseURI asks of the same text: cut it, then check the three parts. */
  predicate TailAccepted(tail: string) {
    var (path, query, fragment) := CutTail(tail);
    IsComponent(path, false) && IsComponent(OrEmpty(query), true) && IsComponent(OrEmpty(fragment), true)
  }

  predicate SplitAccepted(text: string, mark: char, frontQuestion: bool) {
    IsComponent(text[..Index(text, [mark])], frontQuestion) && IsComponent(OrEmpty(After(text, mark)), true)
  }

  lemma IndexStep(text: string, mark: char, n: nat)
    requires n <= |text| && forall k :: 0 <= k < n ==> text[k] != mark
    ensures Index(text, [mark]) == n + Index(text[n..], [mark])
    ensures After(text, mark) == After(text[n..], mark)
  {
    hide Index;
    var rest := text[n..];
    var i := Index(rest, [mark]);
    assert forall k :: n <= k < n + i ==> text[k] == rest[k - n];
    IndexIs(text, [mark], n + i);
    if i < |rest| {
      assert rest[i + 1..] == text[n + i + 1..];
    }
  }

  lemma ComponentStep(text: string, n: nat, q: bool)
    requires 0 < n <= |text| && n == (if text[0] == '%' then 3 else 1)
    ensures IsComponent(text, q) <==>
            (if n == 3 then IsHex(text[1]) && IsHex(text[2]) else Allowed(text[0], q)) && IsComponent(text[n..], q)
  {
  }

  lemma SplitStep(text: string, mark: char, n: nat, q: bool)
    requires 0 < n <= |text| && n == (if text[0] == '%' then 3 else 1)
    requires forall k :: 0 <= k < n ==> text[k] != mark
    ensures SplitAccepted(text, mark, q) <==>
            (if n == 3 then IsHex(text[1]) && IsHex(text[2]) else Allowed(text[0], q))
            && SplitAccepted(text[n..], mark, q)
  {
    IndexStep(text, mark, n);
    hide Index, After, Allowed, IsComponent;
    var i := Index(text[n..], [mark]);
    var front := text[..n + i];
    assert front[n..] == text[n..][..i];
    assert forall k :: 0 <= k < n ==> front[k] == text[k];
    ComponentStep(front, n, q);
  }

  lemma CutEscape(text: string, mark: char, q: bool)
    requires mark == '#' || mark == '?'
    requires text != "" && text[0] == '%'
    requires |text| < 3 || !IsHex(text[1]) || !IsHex(text[2])
    ensures !SplitAccepted(text, mark, q)
  {
    var front := text[..Index(text, [mark])];
    assert front != "" && front[0] == '%';
    if |front| >= 3 {
      assert front[1] == text[1] && front[2] == text[2];
    }
  }

  lemma SplitAtMark(text: string, mark: char, q: bool)
    requires text != "" && text[0] == mark
    ensures SplitAccepted(text, mark, q) <==> IsComponent(text[1..], true)
  {
    IndexIs(text, [mark], 0);
    assert text[..0] == "";
    EmptyComponent(q);
  }

  /** One pass that tolerates "?" agrees with cutting at "?" first. */
  lemma {:induction false} QuestionAgrees(text: string)
    ensures IsComponent(text, true) <==> SplitAccepted(text, '?', false)
  {
    if text != "" {
      if text[0] == '%' {
        if |text| < 3 || !IsHex(text[1]) || !IsHex(text[2]) {
          CutEscape(text, '?', false);
        } else {
          QuestionAgrees(text[3..]);
          SplitStep(text, '?', 3, false);
        }
      } else if text[0] == '?' {
        SplitAtMark(text, '?', false);
      } else {
        QuestionAgrees(text[1..]);
        SplitStep(text, '?', 1, false);
      }
    }
  }

  lemma {:induction false} SecondPart(text: string)
    ensures ScanOk(text, 1) <==> IsComponent(text, true)
  {
    if text != "" {
      if text[0] == '%' {
        if |text| >= 3 {
          SecondPart(text[3..]);
        }
      } else {
        SecondPart(text[1..]);
      }
    }
  }

  lemma {:induction false} HashAgrees(text: string)
    ensures ScanOk(text, 0) <==> SplitAccepted(text, '#', true)
  {
    if text != "" {
      if text[0] == '%' {
        if |text| < 3 || !IsHex(text[1]) || !IsHex(text[2]) {
          CutEscape(text, '#', true);
        } else {
          HashAgrees(text[3..]);
          SplitStep(text, '#', 3, true);
        }
      } else if text[0] == '#' {
        SecondPart(text[1..]);
        SplitAtMark(text, '#', true);
      } else {
        HashAgrees(text[1..]);
        SplitStep(text, '#', 1, true);
      }
    }
  }

  /** The viewer's single pass accepts exactly the tails that cutting and checking three components accepts. */
  lemma ScanAgrees(tail: string)
    ensures ScanOk(tail, 0) <==> TailAccepted(tail)
  {
    HashAgrees(tail);
    QuestionAgrees(tail[..Index(tail, "#")]);
  }

  /** The class [a-z0-9]. */
  predicate InClass(c: char) { c in "abcdefghijklmnopqrstuvwxyz0123456789" }

  lemma ClassIs(c: char)
    ensures InClass(c) <==> IsLowerAlnum(c)
  {
  }

  lemma ClassesAre(s: string)
    ensures forall i :: 0 <= i < |s| ==> (InClass(s[i]) <==> IsLowerAlnum(s[i]))
  {
    forall i | 0 <= i < |s| ensures InClass(s[i]) <==> IsLowerAlnum(s[i]) {
      ClassIs(s[i]);
    }
  }

  /** [a-z0-9][inner]{0,61}[a-z0-9] with inner = a-z0-9- and, for nodes, underscore. */
  ghost predicate LongLabel(s: string, a: char, middle: string, z: char, node: bool) {
    && s == [a] + middle + [z] && |middle| <= 61 && InClass(a) && InClass(z)
    && forall i :: 0 <= i < |middle| ==> InClass(middle[i]) || middle[i] == '-' || (node && middle[i] == '_')
  }

  /** [a-z0-9](?:[inner]{0,61}[a-z0-9])? */
  ghost predicate LabelPattern(s: string, node: bool) {
    (|s| == 1 && InClass(s[0])) || exists a, middle, z :: LongLabel(s, a, middle, z, node)
  }

  predicate LabelOk(s: string, node: bool) {
    if node then IsNodeLabel(s) else IsLabel(s)
  }

  lemma LongLabelOk(s: string, a: char, middle: string, z: char, node: bool)
    requires LongLabel(s, a, middle, z, node)
    ensures LabelOk(s, node)
  {
    hide InClass;
    ClassesAre(s);
    assert |s| == |middle| + 2 && s[0] == a && s[|s| - 1] == z;
    forall i | 0 <= i < |s| ensures IsLowerAlnum(s[i]) || s[i] == '-' || (node && s[i] == '_') {
      if 0 < i < |s| - 1 {
        assert s[i] == middle[i - 1];
      }
    }
  }

  lemma LabelPatternIs(s: string, node: bool)
    ensures LabelPattern(s, node) <==> LabelOk(s, node)
  {
    ClassesAre(s);
    hide InClass;
    if LabelOk(s, node) && |s| >= 2 {
      var middle := s[1..|s| - 1];
      assert s == [s[0]] + middle + [s[|s| - 1]];
      assert LongLabel(s, s[0], middle, s[|s| - 1], node);
    }
    forall a, middle, z | LongLabel(s, a, middle, z, node) ensures LabelOk(s, node) {
      LongLabelOk(s, a, middle, z, node);
    }
  }

  /** One way the pattern can match a host; in .NET the anchor $ also matches before one final newline. */
  ghost predicate Matches(host: string, node: string, network: string, end: string) {
    && host == node + "." + network + end && LabelPattern(node, true) && LabelPattern(network, false)
    && (end == "" || end == "\n")
  }

  ghost predicate HostPattern(host: string) {
    exists node, network, end :: Matches(host, node, network, end)
  }

  predicate EndsLine(host: string) {
    host != "" && host[|host| - 1] == '\n'
  }

  lemma MatchIsAuthority(host: string, node: string, network: string, end: string)
    requires Matches(host, node, network, end)
    ensures IsAuthority(host) || (EndsLine(host) && IsAuthority(host[..|host| - 1]))
  {
    LabelPatternIs(node, true);
    LabelPatternIs(network, false);
    hide LabelPattern, IsNodeLabel, IsLabel;
    var a := node + "." + network;
    assert IsAuthorityOf(a, node, network);
    if end == "\n" {
      assert host[..|host| - 1] == a;
    } else {
      assert host == a;
    }
  }

  lemma AuthorityMatches(authority: string, end: string)
    requires IsAuthority(authority) && (end == "" || end == "\n")
    ensures HostPattern(authority + end)
  {
    var node, network :| IsAuthorityOf(authority, node, network);
    LabelPatternIs(node, true);
    LabelPatternIs(network, false);
    assert Matches(authority + end, node, network, end);
  }

  /** The host pattern accepts exactly the authorities of ValidateAuthority, alone or before one final newline. */
  lemma HostPatternIs(host: string)
    ensures HostPattern(host) <==>
            IsAuthority(host) || (EndsLine(host) && IsAuthority(host[..|host| - 1]))
  {
    hide Matches, IsAuthority;
    forall node, network, end | Matches(host, node, network, end)
      ensures IsAuthority(host) || (EndsLine(host) && IsAuthority(host[..|host| - 1])) {
      MatchIsAuthority(host, node, network, end);
    }
    if IsAuthority(host) {
      AuthorityMatches(host, "");
      assert host + "" == host;
    }
    if EndsLine(host) && IsAuthority(host[..|host| - 1]) {
      AuthorityMatches(host[..|host| - 1], "\n");
      assert host[..|host| - 1] + "\n" == host;
    }
  }

  /** The System.Uri fields TryDeep looks at. */
  datatype Parsed = Parsed(scheme: string, userInfo: string, port: int, host: string)

  function AuthorityText(value: string): string
    requires |value| >= 7
  {
    value[7..][..Index(value[7..], "/?#")]
  }

  /** System.Uri took the text apart at the same places and only lower-cased the host. */
  predicate Faithful(value: string, parsed: Option<Parsed>) {
    parsed.Some? && |value| >= 7 &&
    parsed.value == Parsed("deep", "", -1, ToLower(AuthorityText(value)))
  }

  ghost predicate DeepAccepted(value: string, parsed: Option<Parsed>) {
    && 1 <= |value| <= MAX_URI && PlainAscii(value)
    && |value| >= 7 && ToLower(value[..7]) == SCHEME
    && parsed.Some? && parsed.value.scheme == "deep" && parsed.value.userInfo == "" && parsed.value.port == -1
    && HostPattern(parsed.value.host)
    && ':' !in AuthorityText(value) && '%' !in AuthorityText(value)
    && TailAccepted(value[7 + |AuthorityText(value)|..])
  }

  /** Where System.Uri cuts faithfully, the viewer accepts exactly the texts ParseURI accepts. */
  lemma AgreesWithParser(value: string, parsed: Option<Parsed>)
    requires Faithful(value, parsed)
    ensures DeepAccepted(value, parsed) <==> exists u :: Parses(value, u)
  {
    var authority, tail := AuthorityText(value), value[7..][|AuthorityText(value)|..];
    var s := Cut(value);
    assert s.authority == authority && s.scheme == value[..7];
    assert (s.path, s.query, s.fragment) == CutTail(tail);
    assert tail == value[7 + |authority|..];
    CutSpells(value);
    CutPath(value);
    HostMatches(value);
    if DeepAccepted(value, parsed) {
      TailSpells(s, tail);
      assert SpellingOk(s);
      var node, network :| IsAuthorityOf(ToLower(authority), node, network);
      var u := URI(ToLower(authority), node, network, if s.path == "" then "/" else s.path,
                   OrEmpty(s.query), OrEmpty(s.fragment));
      assert Denotes(s, u);
      assert Parses(value, u);
    }
    if u :| Parses(value, u) {
      ParsesCut(value, u);
      TailSpells(s, tail);
      PlainAuthority(authority);
    }
  }

  lemma TailSpells(s: Spelling, tail: string)
    requires (s.path, s.query, s.fragment) == CutTail(tail)
    requires s.path == "" || s.path[0] == '/'
    ensures TailAccepted(tail) <==> TailOk(s)
  {
    hide CutTail, Index;
    EmptyComponent(true);
  }

  lemma PlainAuthority(authority: string)
    requires IsAuthority(ToLower(authority))
    ensures ':' !in authority && '%' !in authority
  {
    var a := ToLower(authority);
    var node, network :| IsAuthorityOf(a, node, network);
    forall k | 0 <= k < |authority| ensures authority[k] != ':' && authority[k] != '%' {
      assert a[k] == if k < |node| then node[k] else if k == |node| then '.' else network[k - |node| - 1];
    }
  }

  lemma HostMatches(value: string)
    requires |value| >= 7
    ensures PlainAscii(value) ==>
            (HostPattern(ToLower(AuthorityText(value))) <==> IsAuthority(ToLower(AuthorityText(value))))
  {
    var authority := AuthorityText(value);
    HostPatternIs(ToLower(authority));
    if PlainAscii(value) && authority != "" {
      var last := |authority| - 1;
      assert authority[last] == value[7 + last];
      assert ToLower(authority)[last] == Lower(value[7 + last]);
    }
  }
}
