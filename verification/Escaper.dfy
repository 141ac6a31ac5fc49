/** Escaping of a message for Telegram's MarkdownV2: code, bold, italic and strikethrough spans are
    copied, links keep their delimiters, and every other special character gets a backslash. */
module Escaper {
  import opened Basics

  predicate Special(c: char) {
    c in "_*[]()~`>#+-=|{}.!\\"
  }

  // ---------------------------------------------------------------------------------------
  // The entity pattern, as a matcher at the beginning of a string. The alternatives are tried in
  // order: fenced code, code, bold, italic, strikethrough, link.

  datatype Match = NoMatch | SpanOf(length: nat) | LinkOf(caption: nat, url: nat)

  function Find(s: string, c: char): (r: Option<nat>)
    ensures r.Some? ==> r.value < |s| && s[r.value] == c && forall i :: 0 <= i < r.value ==> s[i] != c
    ensures r.None? ==> forall i :: 0 <= i < |s| ==> s[i] != c
  {
    if s == "" then None
    else if s[0] == c then Some(0)
    else match Find(s[1..], c)
         case Some(i) => Some(i + 1)
         case None => None
  }

  predicate FenceAt(s: string, i: nat) {
    i + 3 <= |s| && s[i] == '`' && s[i + 1] == '`' && s[i + 2] == '`'
  }

  function FindFence(s: string): (r: Option<nat>)
    ensures r.Some? ==> FenceAt(s, r.value) && forall i :: 0 <= i < r.value ==> !FenceAt(s, i)
    ensures r.None? ==> forall i: nat :: !FenceAt(s, i)
  {
    if |s| < 3 then None
    else if FenceAt(s, 0) then Some(0)
    else
      assert forall i :: 1 <= i ==> (FenceAt(s, i) <==> FenceAt(s[1..], i - 1));
      match FindFence(s[1..])
      case Some(i) => Some(i + 1)
      case None => None
  }

  /** Fenced code: three backticks, anything, and the next three backticks. */
  function MatchFence(s: string): Match {
    if !FenceAt(s, 0) then NoMatch
    else match FindFence(s[3..])
         case Some(i) => SpanOf(i + 6)
         case None => NoMatch
  }

  /** A delimiter, anything but the delimiter, and the delimiter again. */
  function MatchQuoted(s: string, c: char): Match {
    if s == "" || s[0] != c then NoMatch
    else match Find(s[1..], c)
         case Some(i) => SpanOf(i + 2)
         case None => NoMatch
  }

  function MatchSpan(s: string): (m: Match)
    ensures m.NoMatch? || (m.SpanOf? && 2 <= m.length <= |s|)
  {
    if s == "" then NoMatch
    else if s[0] == '`' then (if MatchFence(s).SpanOf? then MatchFence(s) else MatchQuoted(s, '`'))
    else if s[0] in "*_~" then MatchQuoted(s, s[0])
    else NoMatch
  }

  /** A non-empty caption in brackets directly followed by a non-empty target in parentheses. */
  function MatchLink(s: string): (m: Match)
    ensures m.NoMatch? || (m.LinkOf? && m.caption + m.url + 4 <= |s|)
  {
    if s == "" || s[0] != '[' then NoMatch
    else match Find(s[1..], ']')
         case None => NoMatch
         case Some(caption) =>
           if caption == 0 || |s| <= caption + 2 || s[caption + 2] != '(' then NoMatch
           else match Find(s[caption + 3..], ')')
                case None => NoMatch
                case Some(url) => if url == 0 then NoMatch else LinkOf(caption, url)
  }

  function MatchAt(s: string): (m: Match)
    ensures m.SpanOf? ==> 2 <= m.length <= |s|
    ensures m.LinkOf? ==> m.caption + m.url + 4 <= |s|
  {
    if MatchSpan(s).SpanOf? then MatchSpan(s) else MatchLink(s)
  }

  // ---------------------------------------------------------------------------------------
  // Tokens: the reading of a message, and its two renderings.

  datatype Token = Plain(c: char) | Span(text: string) | Link(caption: string, url: string)

  /** The first token of a message and the number of characters it takes. */
  function First(s: string): (r: (Token, nat))
    requires s != ""
    ensures 1 <= r.1 <= |s|
  {
    match MatchAt(s)
    case NoMatch => (Plain(s[0]), 1)
    case SpanOf(n) => (Span(s[..n]), n)
    case LinkOf(caption, url) => (Link(s[1..caption + 1], s[caption + 3..caption + url + 3]), caption + url + 4)
  }

  function Scan(s: string): seq<Token> {
    if s == "" then [] else [First(s).0] + Scan(s[First(s).1..])
  }

  function EscapeChar(c: char): string {
    if Special(c) then ['\\', c] else [c]
  }

  function EscapeAll(s: string): string {
    if s == "" then "" else EscapeAll(s[..|s| - 1]) + EscapeChar(s[|s| - 1])
  }

  function Raw(t: Token): string {
    match t
    case Plain(c) => [c]
    case Span(text) => text
    case Link(caption, url) => "[" + caption + "](" + url + ")"
  }

  function Escaped(t: Token): string {
    match t
    case Plain(c) => EscapeChar(c)
    case Span(text) => text
    case Link(caption, url) => "[" + EscapeAll(caption) + "](" + EscapeAll(url) + ")"
  }

  function RawAll(ts: seq<Token>): string {
    if ts == [] then "" else Raw(ts[0]) + RawAll(ts[1..])
  }

  function Render(ts: seq<Token>): string {
    if ts == [] then "" else Escaped(ts[0]) + Render(ts[1..])
  }

  function Escape(s: string): string {
    Render(Scan(s))
  }

  // ---------------------------------------------------------------------------------------
  // The escaper itself.

  method PushEscaped(out: string, s: string) returns (r: string)
    ensures r == out + EscapeAll(s)
  {
    r := out;
    for i := 0 to |s|
      invariant r == out + EscapeAll(s[..i])
    {
      assert s[..i + 1][..i] == s[..i];
      if Special(s[i]) {
        r := r + ['\\'];
      }
      r := r + [s[i]];
    }
    assert s[..|s|] == s;
  }

  /** The leftmost match at or after position `from`. */
  method NextMatch(text: string, from: nat) returns (start: nat, m: Match)
    requires from <= |text|
    ensures from <= start <= |text| && m == MatchAt(text[start..])
    ensures forall i :: from <= i < start ==> MatchAt(text[i..]) == NoMatch
    ensures m == NoMatch ==> start == |text|
  {
    hide *;
    NothingMatches();
    start := from;
    while start < |text| && MatchAt(text[start..]) == NoMatch
      invariant from <= start <= |text|
      invariant forall i :: from <= i < start ==> MatchAt(text[i..]) == NoMatch
    {
      start := start + 1;
    }
    m := MatchAt(text[start..]);
    assert text[|text|..] == "";
  }

  lemma NothingMatches()
    ensures MatchAt("") == NoMatch
  {
  }

  /** Appends the entity matched at `start`: spans as they are, links with escaped parts. */
  method PushEntity(out: string, text: string, start: nat, m: Match) returns (r: string, end: nat)
    requires start <= |text| && m == MatchAt(text[start..]) && m != NoMatch
    ensures start < end <= |text|
    ensures r + Escape(text[end..]) == out + Escape(text[start..])
  {
    hide MatchAt, Scan, EscapeAll, Render;
    var rest := text[start..];
    match m {
      case SpanOf(n) =>
        end := start + n;
        assert rest[n..] == text[end..];
        SpanFirst(rest, n);
        r := out + rest[..n];
      case LinkOf(caption, url) =>
        end := start + caption + url + 4;
        assert rest[caption + url + 4..] == text[end..];
        LinkFirst(rest, caption, url);
        var escCaption := PushEscaped("", rest[1..caption + 1]);
        var escUrl := PushEscaped("", rest[caption + 3..caption + url + 3]);
        r := out + "[" + escCaption + "](" + escUrl + ")";
    }
  }

  method EscapeMarkdownV2(text: string) returns (out: string)
    ensures out == Escape(text)
  {
    hide Escape, EscapeAll, MatchAt;
    out := "";
    var last := 0;
    var start, m := NextMatch(text, 0);
    assert text[0..] == text;
    while m != NoMatch
      invariant last <= start <= |text| && m == MatchAt(text[start..])
      invariant forall i :: last <= i < start ==> MatchAt(text[i..]) == NoMatch
      invariant m == NoMatch ==> start == |text|
      invariant out + Escape(text[last..]) == Escape(text)
      decreases |text| - last
    {
      PlainRun(text, last, start);
      out := PushEscaped(out, text[last..start]);
      out, last := PushEntity(out, text, start, m);
      start, m := NextMatch(text, last);
    }
    PlainRun(text, last, |text|);
    out := PushEscaped(out, text[last..]);
    assert text[last..|text|] == text[last..] && text[|text|..] == "";
    EscapeNothing();
  }

  lemma EscapeNothing()
    ensures Escape("") == ""
  {
  }

  lemma EscapeFirst(s: string)
    requires s != ""
    ensures Escape(s) == Escaped(First(s).0) + Escape(s[First(s).1..])
  {
    hide First, Escaped;
    assert Scan(s)[1..] == Scan(s[First(s).1..]);
  }

  lemma SpanFirst(s: string, n: nat)
    requires MatchAt(s) == SpanOf(n)
    ensures Escape(s) == s[..n] + Escape(s[n..])
  {
    hide Escape;
    EscapeFirst(s);
  }

  lemma LinkFirst(s: string, caption: nat, url: nat)
    requires MatchAt(s) == LinkOf(caption, url)
    ensures Escape(s) == "[" + EscapeAll(s[1..caption + 1]) + "](" + EscapeAll(s[caption + 3..caption + url + 3])
            + ")" + Escape(s[caption + url + 4..])
  {
    hide MatchAt, Escape, EscapeAll;
    EscapeFirst(s);
  }

  lemma PlainFirst(s: string)
    requires s != "" && MatchAt(s) == NoMatch
    ensures Escape(s) == EscapeChar(s[0]) + Escape(s[1..])
  {
    hide Escape, EscapeChar;
    EscapeFirst(s);
  }

  lemma {:induction false} EscapeAllCons(s: string)
    requires s != ""
    ensures EscapeAll(s) == EscapeChar(s[0]) + EscapeAll(s[1..])
  {
    if |s| > 1 {
      EscapeAllCons(s[..|s| - 1]);
      assert s[..|s| - 1][1..] == s[1..][..|s| - 2];
    } else {
      assert s[..0] == "" && s[1..] == "";
    }
  }

  /** A stretch without matches is escaped character by character. */
  lemma {:induction false} PlainRun(text: string, from: nat, until: nat)
    requires from <= until <= |text|
    requires forall i :: from <= i < until ==> MatchAt(text[i..]) == NoMatch
    ensures Escape(text[from..]) == EscapeAll(text[from..until]) + Escape(text[until..])
    decreases until - from
  {
    hide MatchAt, Escape, EscapeAll, EscapeChar;
    if from < until {
      PlainFirst(text[from..]);
      assert text[from..][1..] == text[from + 1..];
      PlainRun(text, from + 1, until);
      EscapeAllCons(text[from..until]);
      assert text[from..until][1..] == text[from + 1..until];
    } else {
      assert text[from..until] == "";
      EscapeAllEmpty();
    }
  }

  // ---------------------------------------------------------------------------------------
  // Reading an escaped message back.

  /** Reads escaped text up to an unescaped terminator; fails on any other unescaped special
      character. Returns the text and the number of characters before the terminator. */
  function ReadEscaped(o: string, end: char): (r: Option<(string, nat)>)
    ensures r.Some? ==> r.value.1 < |o|
  {
    if o == "" then None
    else if o[0] == end then Some(("", 0))
    else if o[0] == '\\' then
      if |o| < 2 || !Special(o[1]) then None
      else match ReadEscaped(o[2..], end)
           case Some(r) => Some(([o[1]] + r.0, r.1 + 2))
           case None => None
    else if Special(o[0]) then None
    else match ReadEscaped(o[1..], end)
         case Some(r) => Some(([o[0]] + r.0, r.1 + 1))
         case None => None
  }

  function Prepend(t: Token, ts: Option<seq<Token>>): Option<seq<Token>> {
    if ts.Some? then Some([t] + ts.value) else None
  }

  /** A strict reader of escaped messages. It accepts no special character that is neither escaped
      nor part of a span nor a link delimiter. */
  function Lex(o: string): Option<seq<Token>>
    decreases |o|
  {
    if o == "" then Some([])
    else if o[0] == '\\' then
      if |o| < 2 || !Special(o[1]) then None else Prepend(Plain(o[1]), Lex(o[2..]))
    else if MatchSpan(o).SpanOf? then
      var n := MatchSpan(o).length;
      Prepend(Span(o[..n]), Lex(o[n..]))
    else if o[0] == '[' then
      match ReadEscaped(o[1..], ']')
      case None => None
      case Some(caption) =>
        var rest := o[1..][caption.1 + 1..];
        if rest == "" || rest[0] != '(' then None
        else match ReadEscaped(rest[1..], ')')
             case None => None
             case Some(url) => Prepend(Link(caption.0, url.0), Lex(rest[1..][url.1 + 1..]))
    else if Special(o[0]) then None
    else Prepend(Plain(o[0]), Lex(o[1..]))
  }

  function Decode(o: string): Option<string> {
    match Lex(o)
    case Some(ts) => Some(RawAll(ts))
    case None => None
  }

  lemma FirstIsRaw(s: string)
    requires s != ""
    ensures Raw(First(s).0) == s[..First(s).1]
  {
    hide MatchAt;
    match MatchAt(s)
    case NoMatch =>
    case SpanOf(n) =>
    case LinkOf(caption, url) => LinkText(s, caption, url);
  }

  /** Scanning loses nothing. */
  lemma {:induction false} ScanIsFaithful(s: string)
    ensures RawAll(Scan(s)) == s
  {
    hide *;
    if s == "" {
      ScanNothing();
    } else {
      ScanFirst(s);
      var n := First(s).1;
      ScanIsFaithful(s[n..]);
      FirstIsRaw(s);
      RawAllCons(First(s).0, Scan(s[n..]));
      SplitsAt(s, n);
    }
  }

  lemma ScanNothing()
    ensures Scan("") == [] && RawAll([]) == ""
  {
  }

  lemma ScanFirst(s: string)
    requires s != ""
    ensures 1 <= First(s).1 <= |s| && Scan(s) == [First(s).0] + Scan(s[First(s).1..])
  {
    hide First;
  }

  lemma SplitsAt(s: string, n: nat)
    requires n <= |s|
    ensures s == s[..n] + s[n..]
  {
  }

  lemma RawAllCons(t: Token, ts: seq<Token>)
    ensures RawAll([t] + ts) == Raw(t) + RawAll(ts)
  {
    assert ([t] + ts)[1..] == ts;
  }

  lemma LinkText(s: string, caption: nat, url: nat)
    requires MatchAt(s) == LinkOf(caption, url)
    ensures "[" + s[1..caption + 1] + "](" + s[caption + 3..caption + url + 3] + ")" == s[..caption + url + 4]
  {
    hide MatchSpan;
    assert s[0] == '[' && s[caption + 1] == ']' && s[caption + 2] == '(' && s[caption + url + 3] == ')';
  }

  lemma {:induction false} ReadBack(s: string, end: char, tail: string)
    requires Special(end) && end != '\\'
    ensures ReadEscaped(EscapeAll(s) + [end] + tail, end) == Some((s, |EscapeAll(s)|))
  {
    hide *;
    var ending := [end] + tail;
    Associative(EscapeAll(s), [end], tail);
    if s == "" {
      EscapeAllEmpty();
      ReadEnd(end, tail);
      assert "" + ending == ending;
    } else {
      EscapeAllCons(s);
      ReadBack(s[1..], end, tail);
      Associative(EscapeAll(s[1..]), [end], tail);
      Associative(EscapeChar(s[0]), EscapeAll(s[1..]), ending);
      ReadOne(s[0], EscapeAll(s[1..]) + ending, end);
      assert [s[0]] + s[1..] == s;
    }
  }

  lemma ReadEnd(end: char, tail: string)
    ensures ReadEscaped([end] + tail, end) == Some(("", 0))
  {
  }

  lemma ReadOne(c: char, rest: string, end: char)
    requires Special(end) && end != '\\' && ReadEscaped(rest, end).Some?
    ensures var r := ReadEscaped(rest, end).value;
            ReadEscaped(EscapeChar(c) + rest, end) == Some(([c] + r.0, r.1 + |EscapeChar(c)|))
  {
    if Special(c) {
      ReadSpecial(c, rest, end);
    } else {
      ReadPlain(c, rest, end);
    }
    hide ReadEscaped;
  }

  lemma ReadSpecial(c: char, rest: string, end: char)
    requires Special(c) && end != '\\' && ReadEscaped(rest, end).Some?
    ensures var r := ReadEscaped(rest, end).value; ReadEscaped(['\\', c] + rest, end) == Some(([c] + r.0, r.1 + 2))
  {
    hide Special;
    var o := ['\\', c] + rest;
    assert o[2..] == rest && o[0] == '\\' && o[1] == c;
  }

  lemma ReadPlain(c: char, rest: string, end: char)
    requires !Special(c) && Special(end) && ReadEscaped(rest, end).Some?
    ensures var r := ReadEscaped(rest, end).value; ReadEscaped([c] + rest, end) == Some(([c] + r.0, r.1 + 1))
  {
    PlainDiffers(c, end);
    hide Special;
    ConsParts(c, rest);
  }

  lemma PlainDiffers(c: char, end: char)
    requires !Special(c) && Special(end)
    ensures c != '\\' && c != end
  {
    assert Special('\\');
  }

  lemma ConsParts(c: char, rest: string)
    ensures [c] + rest != "" && ([c] + rest)[0] == c && ([c] + rest)[1..] == rest
  {
  }

  ghost predicate HasFence(s: string) {
    exists i: nat :: FenceAt(s, i)
  }

  /** A backslash cannot take part in a fence. */
  lemma DropBackslash(a: string, b: string)
    requires HasFence(a + "\\" + b)
    ensures HasFence(a + b)
  {
    var with := a + "\\" + b;
    var i: nat :| FenceAt(with, i);
    assert with[|a|] == '\\';
    if i + 3 <= |a| {
      assert FenceAt(a + b, i);
    } else {
      assert |a| < i;
      assert FenceAt(a + b, i - 1);
    }
  }

  lemma EscapeCharIs(c: char)
    ensures EscapeChar(c) == if Special(c) then "\\" + [c] else [c]
  {
  }

  lemma EscapeAllEmpty()
    ensures EscapeAll("") == ""
  {
  }

  lemma {:induction false} UnescapeFence(a: string, s: string, b: string)
    requires HasFence(a + EscapeAll(s) + b)
    ensures HasFence(a + s + b)
    decreases |s|
  {
    hide *;
    if s == "" {
      EscapeAllEmpty();
    } else {
      EscapeAllCons(s);
      EscapeCharIs(s[0]);
      var rest := EscapeAll(s[1..]);
      if Special(s[0]) {
        EscapedFirst(a, s[0], rest, b);
        DropBackslash(a, [s[0]] + (rest + b));
      } else {
        PlainFirstOf(a, s[0], rest, b);
      }
      UnescapeFence(a + [s[0]], s[1..], b);
      FirstMoves(a, s, b);
    }
  }

  lemma EscapedFirst(a: string, c: char, rest: string, b: string)
    ensures a + ("\\" + [c] + rest) + b == a + "\\" + ([c] + (rest + b))
    ensures a + ([c] + (rest + b)) == (a + [c]) + rest + b
  {
  }

  lemma PlainFirstOf(a: string, c: char, rest: string, b: string)
    ensures a + ([c] + rest) + b == (a + [c]) + rest + b
  {
  }

  lemma FirstMoves(a: string, s: string, b: string)
    requires s != ""
    ensures (a + [s[0]]) + s[1..] + b == a + s + b
  {
    assert [s[0]] + s[1..] == s;
    Associative(a, [s[0]], s[1..]);
  }

  lemma UnescapeToken(a: string, t: Token, b: string)
    requires HasFence(a + Escaped(t) + b)
    ensures HasFence(a + Raw(t) + b)
  {
    match t
    case Plain(c) =>
      if Special(c) {
        assert a + Escaped(t) + b == a + "\\" + ([c] + b);
        DropBackslash(a, [c] + b);
        assert a + ([c] + b) == a + Raw(t) + b;
      }
    case Span(_) =>
    case Link(caption, url) => UnescapeLink(a, caption, url, b);
  }

  lemma UnescapeLink(a: string, caption: string, url: string, b: string)
    requires HasFence(a + Escaped(Link(caption, url)) + b)
    ensures HasFence(a + Raw(Link(caption, url)) + b)
  {
    LinkAround(a, EscapeAll(caption), EscapeAll(url), b);
    LinkAround(a, caption, EscapeAll(url), b);
    LinkAround(a, caption, url, b);
    EscapedLink(caption, url);
    hide *;
    UnescapeFence(a + "[", caption, "](" + EscapeAll(url) + ")" + b);
    UnescapeFence(a + "[" + caption + "](", url, ")" + b);
  }

  lemma EscapedLink(caption: string, url: string)
    ensures Escaped(Link(caption, url)) == "[" + EscapeAll(caption) + "](" + EscapeAll(url) + ")"
    ensures Raw(Link(caption, url)) == "[" + caption + "](" + url + ")"
  {
    hide EscapeAll;
  }

  /** Two ways to cut a link and its surroundings. */
  lemma LinkAround(a: string, caption: string, url: string, b: string)
    ensures a + ("[" + caption + "](" + url + ")") + b == (a + "[") + caption + ("](" + url + ")" + b)
    ensures a + ("[" + caption + "](" + url + ")") + b == (a + "[" + caption + "](") + url + (")" + b)
  {
  }

  /** Escaping never creates a fence, not even together with what precedes. */
  lemma {:induction false} NoNewFence(a: string, ts: seq<Token>)
    requires HasFence(a + Render(ts))
    ensures HasFence(a + RawAll(ts))
    decreases |ts|
  {
    hide HasFence, Escaped, Raw;
    if ts != [] {
      assert a + Render(ts) == (a + Escaped(ts[0])) + Render(ts[1..]);
      NoNewFence(a + Escaped(ts[0]), ts[1..]);
      UnescapeToken(a, ts[0], RawAll(ts[1..]));
      assert a + Raw(ts[0]) + RawAll(ts[1..]) == a + RawAll(ts);
    }
  }

  lemma FindInFront(a: string, b: string, c: char)
    requires Find(a, c).Some?
    ensures Find(a + b, c) == Find(a, c)
  {
    var i := Find(a, c).value;
    assert (a + b)[i] == c;
    assert forall j :: 0 <= j < i ==> (a + b)[j] == a[j];
  }

  lemma QuotedInFront(s: string, n: nat, c: char, tail: string)
    requires MatchQuoted(s, c) == SpanOf(n)
    ensures n <= |s| && MatchQuoted(s[..n] + tail, c) == SpanOf(n)
  {
    var i := Find(s[1..], c).value;
    var front := s[1..n];
    assert front[i] == c && forall j :: 0 <= j < i ==> front[j] == s[1..][j];
    assert Find(front, c) == Some(i);
    FindInFront(front, tail, c);
    assert (s[..n] + tail)[1..] == front + tail;
  }

  lemma FenceInFront(s: string, n: nat, tail: string)
    requires MatchFence(s) == SpanOf(n)
    ensures n <= |s| && MatchFence(s[..n] + tail) == SpanOf(n)
  {
    var i := FindFence(s[3..]).value;
    var front := s[3..n];
    var o := front + tail;
    assert (s[..n] + tail)[3..] == o;
    assert FenceAt(o, i);
    forall j | 0 <= j < i ensures !FenceAt(o, j) {
      assert FenceAt(o, j) ==> FenceAt(s[3..], j);
    }
    assert FindFence(o) == Some(i);
  }

  /** A span of the original message is read back as the same span in the escaped message. */
  lemma SpanReadsBack(s: string, n: nat)
    requires MatchSpan(s) == SpanOf(n)
    ensures MatchSpan(s[..n] + Escape(s[n..])) == SpanOf(n)
  {
    var o := s[..n] + Escape(s[n..]);
    assert o[0] == s[0];
    if MatchFence(s).SpanOf? {
      FenceInFront(s, n, Escape(s[n..]));
    } else {
      QuotedInFront(s, n, s[0], Escape(s[n..]));
      if s[0] == '`' {
        CodeIsNoFence(s, n);
      }
    }
  }

  /** Unfenced code does not turn into a fence. */
  lemma CodeIsNoFence(s: string, n: nat)
    requires MatchQuoted(s, '`') == SpanOf(n)
    ensures n <= |s| && (MatchFence(s[..n] + Escape(s[n..])).SpanOf? ==> MatchFence(s).SpanOf?)
  {
    hide Escape;
    var o := s[..n] + Escape(s[n..]);
    assert o[0] == s[0] && o[1] == s[1];
    if MatchFence(o).SpanOf? {
      assert FenceAt(o, 0) && FenceAt(o[3..], FindFence(o[3..]).value);
      assert n == 2;
      assert o[2] == Escape(s[2..])[0];
      assert o[3..] == Escape(s[2..])[1..];
      FenceInOriginal(s[2..]);
      assert s[2..][1..] == s[3..];
      assert FenceAt(s, 0);
    }
  }

  /** If an escaped message begins with a backtick and has a fence after it, so has the original. */
  lemma FenceInOriginal(s: string)
    requires Escape(s) != "" && Escape(s)[0] == '`' && HasFence(Escape(s)[1..])
    ensures s != "" && s[0] == '`' && HasFence(s[1..])
  {
    hide HasFence, MatchAt, Escaped, Raw;
    var ts := Scan(s);
    ScanIsFaithful(s);
    FirstToken(s);
    hide Scan;
    var text := ts[0].text;
    SpanIsVerbatim(ts[0]);
    assert Render(ts) == text + Render(ts[1..]) && RawAll(ts) == text + RawAll(ts[1..]);
    assert Render(ts)[1..] == text[1..] + Render(ts[1..]);
    assert RawAll(ts)[1..] == text[1..] + RawAll(ts[1..]);
    NoNewFence(text[1..], ts[1..]);
  }

  lemma SpanIsVerbatim(t: Token)
    requires t.Span?
    ensures Escaped(t) == Raw(t) == t.text
  {
  }

  lemma FirstToken(s: string)
    requires Escape(s) != "" && Escape(s)[0] == '`'
    ensures Scan(s) != [] && Scan(s)[0].Span? && 2 <= |Scan(s)[0].text|
  {
    hide MatchSpan, MatchLink, MatchFence, MatchQuoted, Find, FindFence;
    var ts := Scan(s);
    assert Escaped(ts[0]) != "" && Escaped(ts[0])[0] == '`';
  }

  /** Strict reading of an escaped message gives back exactly the tokens of the original: so every
      special character outside spans and link delimiters carries a backslash. */
  lemma {:induction false} EscapeReadsBack(s: string)
    ensures Lex(Escape(s)) == Some(Scan(s))
  {
    if s != "" {
      match MatchAt(s) {
        case NoMatch =>
          PlainFirst(s);
          EscapeReadsBack(s[1..]);
          PlainReadsBack(s);
        case SpanOf(n) =>
          SpanFirst(s, n);
          EscapeReadsBack(s[n..]);
          SpanReadsBack(s, n);
          var o := Escape(s);
          assert o[..n] == s[..n] && o[n..] == Escape(s[n..]);
        case LinkOf(caption, url) =>
          LinkFirst(s, caption, url);
          EscapeReadsBack(s[caption + url + 4..]);
          LinkReadsBack(s, caption, url);
      }
    }
  }

  lemma PlainReadsBack(s: string)
    requires s != "" && MatchAt(s) == NoMatch
    requires Lex(Escape(s[1..])) == Some(Scan(s[1..]))
    ensures Lex(EscapeChar(s[0]) + Escape(s[1..])) == Some(Scan(s))
  {
    var o := EscapeChar(s[0]) + Escape(s[1..]);
    if Special(s[0]) {
      assert o[2..] == Escape(s[1..]);
    } else {
      assert o[1..] == Escape(s[1..]);
      assert MatchSpan(o) == NoMatch;
    }
  }

  lemma LexLink(l: string, u: string, tail: string)
    ensures Lex("[" + EscapeAll(l) + "](" + EscapeAll(u) + ")" + tail) == Prepend(Link(l, u), Lex(tail))
  {
    hide EscapeAll, ReadEscaped;
    var o := "[" + EscapeAll(l) + "](" + EscapeAll(u) + ")" + tail;
    var afterCaption := "(" + EscapeAll(u) + ")" + tail;
    assert o[1..] == EscapeAll(l) + "]" + afterCaption;
    ReadBack(l, ']', afterCaption);
    assert o[1..][|EscapeAll(l)| + 1..] == afterCaption;
    assert afterCaption[1..] == EscapeAll(u) + ")" + tail;
    ReadBack(u, ')', tail);
    assert afterCaption[1..][|EscapeAll(u)| + 1..] == tail;
    assert o[0] == '[' && MatchSpan(o) == NoMatch;
  }

  lemma LinkReadsBack(s: string, caption: nat, url: nat)
    requires MatchAt(s) == LinkOf(caption, url)
    requires var tail := s[caption + url + 4..]; Lex(Escape(tail)) == Some(Scan(tail))
    ensures Lex("[" + EscapeAll(s[1..caption + 1]) + "](" + EscapeAll(s[caption + 3..caption + url + 3]) + ")"
            + Escape(s[caption + url + 4..]))
         == Some(Scan(s))
  {
    hide EscapeAll, Lex, Escape, MatchAt;
    assert First(s) == (Link(s[1..caption + 1], s[caption + 3..caption + url + 3]), caption + url + 4);
    LexLink(s[1..caption + 1], s[caption + 3..caption + url + 3], Escape(s[caption + url + 4..]));
  }

  /** Round trip: decoding an escaped message recovers the original exactly, for every message. */
  lemma RoundTrip(s: string)
    ensures Decode(Escape(s)) == Some(s)
  {
    EscapeReadsBack(s);
    ScanIsFaithful(s);
  }

  /** Hence no two messages are escaped alike. */
  lemma EscapeInjective(s: string, t: string)
    requires Escape(s) == Escape(t)
    ensures s == t
  {
    RoundTrip(s);
    RoundTrip(t);
  }
}
