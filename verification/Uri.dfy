/** DEEP URIs (uri.go). A string holds one char per byte of the Go string. */
module Uri {
  import opened Bytes

  const MAX_URI := 4096
  const SCHEME := "deep://"

  predicate IsLowerAlnum(c: char) { 'a' <= c <= 'z' || '0' <= c <= '9' }

  predicate IsHex(c: char) { '0' <= c <= '9' || 'a' <= c <= 'f' || 'A' <= c <= 'F' }

  predicate Allowed(c: char, allowQuestion: bool) {
    IsLowerAlnum(c) || 'A' <= c <= 'Z' || c in "-._~!$&'()*+,;=:@/" || (allowQuestion && c == '?')
  }

  predicate LabelChars(name: string) {
    forall i :: 0 <= i < |name| ==> IsLowerAlnum(name[i]) || name[i] == '-'
  }

  predicate IsLabel(name: string) {
    && 1 <= |name| <= 63 && IsLowerAlnum(name[0]) && IsLowerAlnum(name[|name| - 1])
    && LabelChars(name)
  }

  /** A node label: as a network label, with underscores allowed inside. */
  predicate IsNodeLabel(name: string) {
    && 1 <= |name| <= 63 && IsLowerAlnum(name[0]) && IsLowerAlnum(name[|name| - 1])
    && forall i :: 0 <= i < |name| ==> IsLowerAlnum(name[i]) || name[i] == '-' || name[i] == '_'
  }

  /** The canonical form node.network. */
  ghost predicate IsAuthorityOf(authority: string, node: string, network: string) {
    authority == node + "." + network && IsNodeLabel(node) && IsLabel(network)
  }

  ghost predicate IsAuthority(authority: string) {
    exists node, network :: IsAuthorityOf(authority, node, network)
  }

  /** strings.IndexAny and strings.IndexByte: the first position holding one of cs, or the length. */
  function Index(s: string, cs: string): (i: nat)
    ensures i <= |s|
    ensures forall k :: 0 <= k < i ==> s[k] !in cs
    ensures i < |s| ==> s[i] in cs
  {
    if s == [] || s[0] in cs then 0 else 1 + Index(s[1..], cs)
  }

  lemma IndexIs(s: string, cs: string, i: nat)
    requires i <= |s| && (forall k :: 0 <= k < i ==> s[k] !in cs) && (i < |s| ==> s[i] in cs)
    ensures Index(s, cs) == i
  {
    var j := Index(s, cs);
    assert j < |s| ==> s[j] in cs;
  }

  /** strings.Split(s, "."). */
  function SplitDots(s: string): (parts: seq<string>)
    ensures |parts| >= 1
  {
    var i := Index(s, ".");
    if i == |s| then [s] else [s[..i]] + SplitDots(s[i + 1..])
  }

  function Dashes(s: string): (t: string)
    ensures |t| == |s|
    ensures forall i :: 0 <= i < |s| ==> t[i] == if s[i] == '_' then '-' else s[i]
  {
    seq(|s|, i requires 0 <= i < |s| => if s[i] == '_' then '-' else s[i])
  }

  method ValidLabel(name: string) returns (ok: bool)
    ensures ok <==> IsLabel(name)
  {
    if |name| < 1 || |name| > 63 || !IsLowerAlnum(name[0]) || !IsLowerAlnum(name[|name| - 1]) {
      return false;
    }
    for index := 0 to |name|
      invariant LabelChars(name[..index])
    {
      if !IsLowerAlnum(name[index]) && name[index] != '-' {
        return false;
      }
    }
    assert name[..|name|] == name;
    ok := true;
  }

  method ValidNodeLabel(name: string) returns (ok: bool)
    ensures ok <==> IsNodeLabel(name)
  {
    ok := ValidLabel(Dashes(name));
    assert ok ==> forall i :: 0 <= i < |name| ==> IsLowerAlnum(Dashes(name)[i]) || Dashes(name)[i] == '-';
  }

  /** Two labels around one dot are one authority only. */
  lemma SplitAuthority(authority: string, node: string, network: string)
    requires IsAuthorityOf(authority, node, network)
    ensures SplitDots(authority) == [node, network]
  {
    assert authority[|node|] == '.';
    assert forall k :: 0 <= k < |node| ==> authority[k] == node[k] && authority[k] != '.';
    IndexIs(authority, ".", |node|);
    assert authority[..|node|] == node && authority[|node| + 1..] == network;
    IndexIs(network, ".", |network|);
  }

  lemma JoinSplit(s: string)
    requires |SplitDots(s)| == 2
    ensures s == SplitDots(s)[0] + "." + SplitDots(s)[1]
  {
    var i := Index(s, ".");
    var rest := s[i + 1..];
    assert Index(rest, ".") == |rest|;
    assert s == s[..i] + [s[i]] + rest;
  }

  method ValidateAuthority(authority: string) returns (ok: bool)
    ensures ok <==> IsAuthority(authority)
  {
    var parts := SplitDots(authority);
    if |parts| != 2 {
      forall node, network | IsAuthorityOf(authority, node, network) ensures false {
        SplitAuthority(authority, node, network);
      }
      return false;
    }
    JoinSplit(authority);
    ok := ValidNodeLabel(parts[0]);
    if ok {
      ok := ValidLabel(parts[1]);
    }
    if ok {
      assert IsAuthorityOf(authority, parts[0], parts[1]);
    } else {
      forall node, network | IsAuthorityOf(authority, node, network) ensures false {
        SplitAuthority(authority, node, network);
      }
    }
  }

  /** What validateComponent accepts: allowed characters and whole percent escapes. */
  predicate IsComponent(value: string, allowQuestion: bool) {
    value == [] ||
    if value[0] == '%' then
      |value| >= 3 && IsHex(value[1]) && IsHex(value[2]) && IsComponent(value[3..], allowQuestion)
    else
      Allowed(value[0], allowQuestion) && IsComponent(value[1..], allowQuestion)
  }

  lemma EmptyComponent(allowQuestion: bool)
    ensures IsComponent("", allowQuestion)
  {
  }

  method ValidateComponent(value: string, allowQuestion: bool) returns (ok: bool)
    ensures ok <==> IsComponent(value, allowQuestion)
  {
    var index := 0;
    while index < |value|
      invariant 0 <= index <= |value|
      invariant IsComponent(value, allowQuestion) <==> IsComponent(value[index..], allowQuestion)
    {
      var c := value[index];
      assert value[index..][0] == c;
      if c == '%' {
        if index + 2 >= |value| || !IsHex(value[index + 1]) || !IsHex(value[index + 2]) {
          return false;
        }
        assert value[index..][3..] == value[index + 3..];
        index := index + 3;
      } else {
        if !Allowed(c, allowQuestion) {
          return false;
        }
        assert value[index..][1..] == value[index + 1..];
        index := index + 1;
      }
    }
    ok := true;
  }

  /** HEXDIG in either case. */
  predicate HexDigit(c: char) { c in "0123456789abcdefABCDEF" }

  lemma HexDigitIs(c: char)
    ensures HexDigit(c) <==> IsHex(c)
  {
  }

  /** One element of the grammar of section 3.3 of RFC 3986. */
  datatype Piece = Escape(hi: char, lo: char) | Plain(c: char)

  /** unreserved, pct-encoded, sub-delims, ":", "@" and "/" (sections 2.1 to 2.3, 3.3), and "?" (sections 3.4, 3.5). */
  predicate InGrammar(p: Piece, allowQuestion: bool) {
    match p
    case Escape(hi, lo) => HexDigit(hi) && HexDigit(lo)
    case Plain(c) =>
      || 'a' <= c <= 'z' || 'A' <= c <= 'Z' || '0' <= c <= '9' || c in "-._~"
      || c in "!$&'()*+,;="
      || c in ":@" || c == '/'
      || (allowQuestion && c == '?')
  }

  function Render(pieces: seq<Piece>): string {
    if pieces == [] then ""
    else (match pieces[0] case Escape(hi, lo) => ['%', hi, lo] case Plain(c) => [c]) + Render(pieces[1..])
  }

  ghost predicate Derives(pieces: seq<Piece>, value: string, allowQuestion: bool) {
    Render(pieces) == value && forall i :: 0 <= i < |pieces| ==> InGrammar(pieces[i], allowQuestion)
  }

  lemma {:induction false} DerivedIsComponent(pieces: seq<Piece>, value: string, allowQuestion: bool)
    requires Derives(pieces, value, allowQuestion)
    ensures IsComponent(value, allowQuestion)
  {
    hide HexDigit;
    if pieces != [] {
      var rest := Render(pieces[1..]);
      if pieces[0].Escape? {
        HexDigitIs(pieces[0].hi);
        HexDigitIs(pieces[0].lo);
      }
      DerivedIsComponent(pieces[1..], rest, allowQuestion);
      match pieces[0]
      case Escape(hi, lo) =>
        assert value[3..] == rest;
      case Plain(c) =>
        assert value[1..] == rest;
    }
  }

  lemma {:induction false} ComponentDerives(value: string, allowQuestion: bool) returns (pieces: seq<Piece>)
    requires IsComponent(value, allowQuestion)
    ensures Derives(pieces, value, allowQuestion)
  {
    hide HexDigit;
    if value == [] {
      pieces := [];
    } else if value[0] == '%' {
      HexDigitIs(value[1]);
      HexDigitIs(value[2]);
      var rest := ComponentDerives(value[3..], allowQuestion);
      pieces := [Escape(value[1], value[2])] + rest;
      assert pieces[1..] == rest;
      assert value == ['%', value[1], value[2]] + value[3..];
    } else {
      var rest := ComponentDerives(value[1..], allowQuestion);
      pieces := [Plain(value[0])] + rest;
      assert pieces[1..] == rest;
      assert value == [value[0]] + value[1..];
    }
  }

  /** validateComponent accepts exactly the strings the grammar of RFC 3986 derives. */
  lemma ComponentIsGrammar(value: string, allowQuestion: bool)
    ensures IsComponent(value, allowQuestion) <==> exists pieces :: Derives(pieces, value, allowQuestion)
  {
    if IsComponent(value, allowQuestion) {
      var pieces := ComponentDerives(value, allowQuestion);
    }
    forall pieces | Derives(pieces, value, allowQuestion) ensures IsComponent(value, allowQuestion) {
      DerivedIsComponent(pieces, value, allowQuestion);
    }
  }

  predicate IsResource(path: string, query: string) {
    && path != "" && path[0] == '/'
    && |path| + (if query != "" then 1 + |query| else 0) <= MAX_URI
    && IsComponent(path, false) && IsComponent(query, true)
  }

  method ValidateResource(path: string, query: string) returns (ok: bool)
    ensures ok <==> IsResource(path, query)
  {
    if |path| == 0 || path[0] != '/' {
      return false;
    }
    var resourceLength := |path|;
    if query != "" {
      resourceLength := resourceLength + 1 + |query|;
    }
    if resourceLength > MAX_URI {
      return false;
    }
    ok := ValidateComponent(path, false);
    if ok {
      ok := ValidateComponent(query, true);
    }
  }

  function Lower(c: char): char {
    if 'A' <= c <= 'Z' then c + 32 as char else c
  }

  /** strings.ToLower on ASCII. */
  function ToLower(s: string): (t: string)
    ensures |t| == |s|
    ensures forall i :: 0 <= i < |s| ==> t[i] == Lower(s[i])
  {
    seq(|s|, i requires 0 <= i < |s| => Lower(s[i]))
  }

  datatype URI = URI(authority: string, node: string, network: string,
                     path: string, query: string, fragment: string)

  /** A DEEP URI as it is spelled: None is an absent delimiter, Some("") a delimiter with nothing after it. */
  datatype Spelling = Spelling(scheme: string, authority: string, path: string,
                               query: Option<string>, fragment: Option<string>)

  function Delimited(mark: char, part: Option<string>): string {
    if part.Some? then [mark] + part.value else ""
  }

  function Tail(s: Spelling): string {
    s.path + Delimited('?', s.query) + Delimited('#', s.fragment)
  }

  function Text(s: Spelling): string {
    s.scheme + s.authority + Tail(s)
  }

  predicate TailOk(s: Spelling) {
    && (s.path == "" || s.path[0] == '/') && IsComponent(s.path, false)
    && (s.query.Some? ==> IsComponent(s.query.value, true))
    && (s.fragment.Some? ==> IsComponent(s.fragment.value, true))
  }

  ghost predicate SpellingOk(s: Spelling) {
    ToLower(s.scheme) == SCHEME && IsAuthority(ToLower(s.authority)) && TailOk(s)
  }

  function OrEmpty(part: Option<string>): string {
    if part.Some? then part.value else ""
  }

  /** What a spelling denotes: the path defaults to "/", an absent query or fragment is empty. */
  ghost predicate Denotes(s: Spelling, u: URI) {
    && u.authority == ToLower(s.authority) && IsAuthorityOf(u.authority, u.node, u.network)
    && u.path == (if s.path == "" then "/" else s.path)
    && u.query == OrEmpty(s.query) && u.fragment == OrEmpty(s.fragment)
  }

  lemma AuthorityChars(authority: string)
    requires IsAuthority(ToLower(authority))
    ensures |authority| >= 3
    ensures forall k :: 0 <= k < |authority| ==> authority[k] !in "/?#"
  {
    var a := ToLower(authority);
    var node, network :| IsAuthorityOf(a, node, network);
    forall k | 0 <= k < |authority| ensures authority[k] !in "/?#" {
      assert a[k] == if k < |node| then node[k] else if k == |node| then '.' else network[k - |node| - 1];
    }
  }

  lemma {:induction false} ComponentChars(value: string, allowQuestion: bool)
    requires IsComponent(value, allowQuestion)
    ensures forall k :: 0 <= k < |value| ==> ' ' < value[k] < 127 as char && value[k] != '\\'
    ensures forall k :: 0 <= k < |value| ==> value[k] != '#'
    ensures !allowQuestion ==> forall k :: 0 <= k < |value| ==> value[k] != '?'
  {
    if value != [] {
      if value[0] == '%' {
        ComponentChars(value[3..], allowQuestion);
        assert forall k :: 3 <= k < |value| ==> value[k] == value[3..][k - 3];
      } else {
        ComponentChars(value[1..], allowQuestion);
        assert forall k :: 1 <= k < |value| ==> value[k] == value[1..][k - 1];
      }
    }
  }

  /** How ParseURI cuts the text after the authority. */
  function CutTail(tail: string): (string, Option<string>, Option<string>) {
    var rest := tail[..Index(tail, "#")];
    (rest[..Index(rest, "?")], After(rest, '?'), After(tail, '#'))
  }

  function After(s: string, mark: char): Option<string> {
    var i := Index(s, [mark]);
    if i < |s| then Some(s[i + 1..]) else None
  }

  lemma CutAtMark(front: string, mark: char, part: Option<string>)
    requires forall k :: 0 <= k < |front| ==> front[k] != mark
    ensures var s := front + Delimited(mark, part);
            s[..Index(s, [mark])] == front && After(s, mark) == part
  {
    hide Index;
    var s, n := front + Delimited(mark, part), |front|;
    assert s[..n] == front;
    if part.Some? {
      assert s[n] == mark && s[n + 1..] == part.value;
    }
    IndexIs(s, [mark], n);
  }

  /** Cutting undoes joining. */
  lemma CutTailJoined(s: Spelling)
    requires TailOk(s)
    ensures CutTail(Tail(s)) == (s.path, s.query, s.fragment)
  {
    ComponentChars(s.path, false);
    if s.query.Some? {
      ComponentChars(s.query.value, true);
    }
    var rest := s.path + Delimited('?', s.query);
    assert forall k :: 0 <= k < |rest| ==> rest[k] != '#';
    CutAtMark(rest, '#', s.fragment);
    CutAtMark(s.path, '?', s.query);
    hide Index, After, Delimited, IsComponent;
  }

  lemma JoinAtMark(s: string, mark: char)
    ensures s == s[..Index(s, [mark])] + Delimited(mark, After(s, mark))
  {
    var i := Index(s, [mark]);
    hide Index;
    if i < |s| {
      assert s[i] == mark;
      assert s == s[..i] + ([s[i]] + s[i + 1..]);
    }
  }

  lemma JoinCutTail(tail: string)
    ensures var (path, query, fragment) := CutTail(tail);
            tail == path + Delimited('?', query) + Delimited('#', fragment)
  {
    JoinAtMark(tail, '#');
    JoinAtMark(tail[..Index(tail, "#")], '?');
    hide Index, Delimited;
  }

  /** Where the authority ends: no text has two such cuts. */
  lemma AuthorityEnds(s: Spelling)
    requires SpellingOk(s)
    ensures |s.scheme| == 7
    ensures Index(Text(s)[7..], "/?#") == |s.authority|
  {
    AuthorityChars(s.authority);
    assert |SCHEME| == 7;
    var rest := Text(s)[7..];
    assert rest == s.authority + Tail(s);
    assert forall k :: 0 <= k < |s.authority| ==> rest[k] == s.authority[k];
    IndexIs(rest, "/?#", |s.authority|);
  }

  /** A text is spelled one way only. */
  lemma OneSpelling(s: Spelling, t: Spelling)
    requires SpellingOk(s) && SpellingOk(t) && Text(s) == Text(t)
    ensures s == t
  {
    AuthorityEnds(s);
    AuthorityEnds(t);
    var text := Text(s);
    assert s.scheme == text[..7] == t.scheme;
    assert s.authority == text[7..][..|s.authority|] == t.authority;
    assert Tail(s) == text[7 + |s.authority|..] == Tail(t);
    CutTailJoined(s);
    CutTailJoined(t);
  }

  predicate PlainAscii(raw: string) {
    forall i :: 0 <= i < |raw| ==> ' ' < raw[i] < 127 as char && raw[i] != '\\'
  }

  method ValidateASCII(value: string) returns (ok: bool)
    ensures ok <==> PlainAscii(value)
  {
    for index := 0 to |value|
      invariant PlainAscii(value[..index])
    {
      var c := value[index];
      if c <= ' ' || c >= 127 as char || c == '\\' {
        return false;
      }
    }
    assert value[..|value|] == value;
    ok := true;
  }

  /** The 4096-byte test of ValidateResource never rejects what the rest of ParseURI accepts. */
  lemma ResourceFits(s: Spelling, path: string, query: string)
    requires SpellingOk(s) && |Text(s)| <= MAX_URI
    requires path == (if s.path == "" then "/" else s.path) && query == OrEmpty(s.query)
    ensures |path| + (if query != "" then 1 + |query| else 0) <= MAX_URI - 9
    ensures IsResource(path, query)
  {
    AuthorityChars(s.authority);
    AuthorityEnds(s);
    assert IsComponent("/", false) by {
      assert "/"[1..] == "";
    }
    assert IsComponent("", true);
  }

  lemma SpellingAscii(s: Spelling)
    requires SpellingOk(s)
    ensures PlainAscii(Text(s))
  {
    var a := ToLower(s.authority);
    var node, network :| IsAuthorityOf(a, node, network);
    forall k | 0 <= k < |a| ensures ' ' < s.authority[k] < 127 as char && s.authority[k] != '\\' {
      assert a[k] == if k < |node| then node[k] else if k == |node| then '.' else network[k - |node| - 1];
    }
    forall k | 0 <= k < |s.scheme| ensures ' ' < s.scheme[k] < 127 as char && s.scheme[k] != '\\' {
      assert ToLower(s.scheme)[k] == SCHEME[k];
    }
    ComponentChars(s.path, false);
    if s.query.Some? {
      ComponentChars(s.query.value, true);
    }
    if s.fragment.Some? {
      ComponentChars(s.fragment.value, true);
    }
  }

  /** The one candidate spelling of a text. */
  function Cut(raw: string): Spelling
    requires |raw| >= 7
  {
    var rest := raw[7..];
    var end := Index(rest, "/?#");
    var (path, query, fragment) := CutTail(rest[end..]);
    Spelling(raw[..7], rest[..end], path, query, fragment)
  }

  lemma CutTailSpells(raw: string)
    requires |raw| >= 7
    ensures Tail(Cut(raw)) == raw[7..][Index(raw[7..], "/?#")..]
  {
    hide CutTail, Index;
    JoinCutTail(raw[7..][Index(raw[7..], "/?#")..]);
  }

  lemma JoinThree(s: string, i: nat, j: nat)
    requires i <= |s| && j <= |s[i..]|
    ensures s == s[..i] + s[i..][..j] + s[i..][j..]
  {
  }

  lemma CutSpells(raw: string)
    requires |raw| >= 7
    ensures Text(Cut(raw)) == raw
  {
    CutTailSpells(raw);
    JoinThree(raw, 7, Index(raw[7..], "/?#"));
    hide CutTail, Tail, Index;
  }

  lemma CutPath(raw: string)
    requires |raw| >= 7
    ensures Cut(raw).path == "" || Cut(raw).path[0] == '/'
  {
    var rest := raw[7..];
    var end := Index(rest, "/?#");
    var tail := rest[end..];
    PathStarts(tail, if tail == "" then '/' else rest[end]);
  }

  lemma PathStarts(tail: string, first: char)
    requires first in "/?#" && (tail != "" ==> tail[0] == first)
    ensures CutTail(tail).0 == "" || CutTail(tail).0[0] == '/'
  {
    var path := CutTail(tail).0;
    if path != "" {
      assert path[0] == tail[0];
      assert first != '#' && first != '?';
    }
  }

  lemma CutIsOnly(raw: string, s: Spelling)
    requires SpellingOk(s) && Text(s) == raw
    ensures |raw| >= 7 && s == Cut(raw)
  {
    AuthorityEnds(s);
    CutTailJoined(s);
    hide CutTail, Tail;
    assert raw[..7] == s.scheme;
    var rest := raw[7..];
    assert rest == s.authority + Tail(s);
    assert rest[..|s.authority|] == s.authority && rest[|s.authority|..] == Tail(s);
  }

  /** The path, query and fragment of the text after the authority, if they pass their checks. */
  method ParseTail(tail: string) returns (r: Option<(string, string, string)>)
    ensures var (path, query, fragment) := CutTail(tail);
            var p := if path == "" then "/" else path;
            r == if IsResource(p, OrEmpty(query)) && IsComponent(OrEmpty(fragment), true)
                 then Some((p, OrEmpty(query), OrEmpty(fragment))) else None
  {
    hide IsComponent, IsResource, Index;
    var rest := tail;
    var fragment, query := "", "";
    var index := Index(rest, "#");
    assert tail[..|tail|] == tail;
    if index < |rest| {
      fragment, rest := rest[index + 1..], rest[..index];
      var fragmentOk := ValidateComponent(fragment, true);
      if !fragmentOk {
        return None;
      }
    }
    index := Index(rest, "?");
    assert rest[..|rest|] == rest;
    if index < |rest| {
      query, rest := rest[index + 1..], rest[..index];
    }
    var path := rest;
    if path == "" {
      path := "/";
    }
    var resourceOk := ValidateResource(path, query);
    if !resourceOk {
      return None;
    }
    assert IsComponent("", true) by {
      EmptyComponent(true);
    }
    r := Some((path, query, fragment));
  }

  /** The checks ParseURI makes on a cut text are those of a well-formed spelling. */
  lemma ChecksAreSpelling(s: Spelling)
    requires |Text(s)| <= MAX_URI
    requires s.path == "" || s.path[0] == '/'
    ensures SpellingOk(s) <==>
            && ToLower(s.scheme) == SCHEME && IsAuthority(ToLower(s.authority))
            && IsResource(if s.path == "" then "/" else s.path, OrEmpty(s.query))
            && IsComponent(OrEmpty(s.fragment), true)
  {
    assert IsComponent("", true) && IsComponent("", false);
    if SpellingOk(s) {
      ResourceFits(s, if s.path == "" then "/" else s.path, OrEmpty(s.query));
    }
  }

  /** raw is an acceptable text for the resource u. */
  ghost predicate Parses(raw: string, u: URI) {
    |raw| <= MAX_URI && exists s :: SpellingOk(s) && Text(s) == raw && Denotes(s, u)
  }

  lemma ParsesCut(raw: string, u: URI)
    requires Parses(raw, u)
    ensures PlainAscii(raw) && |raw| >= 7 && SpellingOk(Cut(raw))
  {
    var s :| SpellingOk(s) && Text(s) == raw && Denotes(s, u);
    SpellingAscii(s);
    CutIsOnly(raw, s);
  }

  /** ParseURI finds the URI a text denotes, and fails only when it denotes none. */
  method ParseURI(raw: string) returns (r: Option<URI>)
    ensures r.Some? ==> Parses(raw, r.value)
    ensures r.None? ==> forall u :: !Parses(raw, u)
  {
    hide IsComponent, TailOk, Index, IsNodeLabel, IsLabel, IsResource, CutTail, Tail;
    assert forall u :: Parses(raw, u) ==> PlainAscii(raw) && |raw| >= 7 && SpellingOk(Cut(raw)) by {
      forall u | Parses(raw, u) ensures PlainAscii(raw) && |raw| >= 7 && SpellingOk(Cut(raw)) {
        ParsesCut(raw, u);
      }
    }
    if |raw| == 0 || |raw| > MAX_URI {
      return None;
    }
    var ascii := ValidateASCII(raw);
    if !ascii {
      return None;
    }
    if |raw| < |SCHEME| {
      return None;
    }
    CutSpells(raw);
    CutPath(raw);
    ghost var spelling := Cut(raw);
    ChecksAreSpelling(spelling);
    if ToLower(raw[..|SCHEME|]) != SCHEME {
      return None;
    }
    var rest := raw[|SCHEME|..];
    var authorityEnd := Index(rest, "/?#");
    var authority := ToLower(rest[..authorityEnd]);
    var authorityOk := ValidateAuthority(authority);
    if !authorityOk {
      return None;
    }
    var parts := SplitDots(authority);
    ghost var node, network :| IsAuthorityOf(authority, node, network);
    SplitAuthority(authority, node, network);
    var tail := ParseTail(rest[authorityEnd..]);
    if tail == None {
      return None;
    }
    var (path, query, fragment) := tail.value;
    r := Some(URI(authority, parts[0], parts[1], path, query, fragment));
    assert Denotes(spelling, r.value);
  }

  /** No text denotes two resources. */
  lemma ParsesOnce(raw: string, u: URI, v: URI)
    requires Parses(raw, u) && Parses(raw, v)
    ensures u == v
  {
    hide SpellingOk, Text, IsNodeLabel, IsLabel, SplitDots;
    var s :| SpellingOk(s) && Text(s) == raw && Denotes(s, u);
    var t :| SpellingOk(t) && Text(t) == raw && Denotes(t, v);
    OneSpelling(s, t);
    SplitAuthority(u.authority, u.node, u.network);
    SplitAuthority(v.authority, v.node, v.network);
  }

  /** What a client puts in its REQUEST passes every check the server makes of it. */
  lemma ParsedPassesServer(raw: string, u: URI)
    requires Parses(raw, u)
    ensures IsAuthority(u.authority) && IsResource(u.path, u.query)
    ensures u.authority == u.node + "." + u.network
  {
    var s :| SpellingOk(s) && Text(s) == raw && Denotes(s, u);
    ResourceFits(s, u.path, u.query);
  }

  /** A parsed URI printed again. */
  function Print(u: URI): string {
    SCHEME + u.authority + u.path
    + (if u.query == "" then "" else "?" + u.query) + (if u.fragment == "" then "" else "#" + u.fragment)
  }

  function Respelled(u: URI): Spelling {
    Spelling(SCHEME, u.authority, u.path,
             if u.query == "" then None else Some(u.query),
             if u.fragment == "" then None else Some(u.fragment))
  }

  lemma RespelledText(u: URI)
    ensures Text(Respelled(u)) == Print(u)
  {
    assert u.query != "" ==> Delimited('?', Some(u.query)) == "?" + u.query;
    assert u.fragment != "" ==> Delimited('#', Some(u.fragment)) == "#" + u.fragment;
  }

  lemma RespelledOk(s: Spelling, u: URI)
    requires SpellingOk(s) && Denotes(s, u)
    ensures SpellingOk(Respelled(u)) && Denotes(Respelled(u), u)
  {
    hide IsNodeLabel, IsLabel, Text;
    assert ToLower(SCHEME) == SCHEME;
    assert ToLower(u.authority) == u.authority;
    assert IsComponent("/", false) by {
      assert "/"[1..] == "";
    }
  }

  lemma PrintedLength(s: Spelling, u: URI)
    requires SpellingOk(s) && Denotes(s, u)
    ensures |Print(u)| <= |Text(s)| + if s.path == "" then 1 else 0
  {
    AuthorityEnds(s);
    hide IsComponent, IsAuthority, IsNodeLabel, IsLabel;
  }

  /** Printing and reading again gives the same URI exactly when the print still fits; it can outgrow its text by
      one byte only, the "/" of an empty path. */
  lemma PrintParses(raw: string, u: URI, v: URI)
    requires Parses(raw, u)
    ensures Parses(Print(u), v) <==> v == u && |Print(u)| <= MAX_URI
    ensures |Print(u)| <= |raw| + 1
  {
    var s :| SpellingOk(s) && Text(s) == raw && Denotes(s, u);
    RespelledOk(s, u);
    RespelledText(u);
    PrintedLength(s, u);
    hide SpellingOk, Text, Denotes, Print;
    if |Print(u)| <= MAX_URI {
      assert Parses(Print(u), u);
      if Parses(Print(u), v) {
        ParsesOnce(Print(u), u, v);
      }
    }
  }

  /** Every text put together from well-formed parts reads back as exactly those parts, the authority in either case. */
  lemma ReadsParts(authority: string, node: string, network: string, path: string, query: string, fragment: string)
    requires IsAuthorityOf(ToLower(authority), node, network)
    requires path != "" && path[0] == '/' && IsComponent(path, false) && IsComponent(query, true) && IsComponent(fragment, true)
    requires |"deep://" + authority + path + "?" + query + "#" + fragment| <= 4096
    ensures Parses("deep://" + authority + path + "?" + query + "#" + fragment,
                   URI(ToLower(authority), node, network, path, query, fragment))
  {
    var s := Spelling(SCHEME, authority, path, Some(query), Some(fragment));
    hide IsComponent, IsNodeLabel, IsLabel;
    assert ToLower(SCHEME) == SCHEME;
    assert Delimited('?', s.query) == "?" + query && Delimited('#', s.fragment) == "#" + fragment;
    assert Text(s) == "deep://" + authority + path + "?" + query + "#" + fragment;
    assert SpellingOk(s) && Denotes(s, URI(ToLower(authority), node, network, path, query, fragment));
  }
}
