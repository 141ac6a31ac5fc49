/** What escaping does to a message, case by case, for every message: each begins with a span, a link, or
    some other character. The cases are stated in terms of the text alone. */
module EscapeCases {
  import opened Basics
  import opened Escaper

  /** A text with a backslash before each of the special characters. */
  function Backslashed(s: string): string {
    if s == "" then ""
    else (if s[0] in "_*[]()~`>#+-=|{}.!\\" then "\\" else "") + [s[0]] + Backslashed(s[1..])
  }

  lemma {:induction false} EscapeAllIs(s: string)
    ensures EscapeAll(s) == Backslashed(s)
  {
    if s != "" {
      EscapeAllCons(s);
      EscapeAllIs(s[1..]);
      EscapeCharIs(s[0]);
      hide EscapeAll, EscapeChar;
    }
  }

  lemma EscapeCharIs(c: char)
    ensures EscapeChar(c) == (if c in "_*[]()~`>#+-=|{}.!\\" then "\\" else "") + [c]
  {
  }

  lemma FindIs(s: string, c: char, k: nat)
    requires k < |s| && s[k] == c && forall i :: 0 <= i < k ==> s[i] != c
    ensures Find(s, c) == Some(k)
  {
    hide Find;
    var r := Find(s, c);
    assert r.Some?;
    assert !(r.value < k) && !(k < r.value);
  }

  lemma QuotedIs(c: char, w: string, s: string)
    requires forall i :: 0 <= i < |w| ==> w[i] != c
    ensures var t := [c] + w + [c] + s;
            MatchQuoted(t, c) == SpanOf(|w| + 2) && t[..|w| + 2] == [c] + w + [c] && t[|w| + 2..] == s
  {
    var t := [c] + w + [c] + s;
    assert t[1..] == w + [c] + s;
    FindIs(t[1..], c, |w|);
  }

  /** Bold, italic and strikethrough: a span between two asterisks, underscores or tildes is copied as it
      is, special characters included. */
  lemma SpansAreKept(c: char, w: string, s: string)
    requires c in "*_~" && forall i :: 0 <= i < |w| ==> w[i] != c
    ensures Escape([c] + w + [c] + s) == [c] + w + [c] + Escape(s)
  {
    QuotedIs(c, w, s);
    var t := [c] + w + [c] + s;
    assert t[0] == c;
    hide Escape, MatchQuoted;
    SpanFirst(t, |w| + 2);
  }

  lemma FindFenceIs(s: string, k: nat)
    requires FenceAt(s, k) && forall i :: 0 <= i < k ==> !FenceAt(s, i)
    ensures FindFence(s) == Some(k)
  {
    hide FindFence;
    var r := FindFence(s);
    assert r.Some?;
    assert !(r.value < k) && !(k < r.value);
  }

  /** Three backticks at position i. */
  predicate ThreeTicks(s: string, i: nat) {
    i + 3 <= |s| && s[i..i + 3] == "```"
  }

  lemma ThreeTicksIff(s: string, i: nat)
    ensures ThreeTicks(s, i) <==> FenceAt(s, i)
  {
    if i + 3 <= |s| {
      assert s[i..i + 3] == [s[i], s[i + 1], s[i + 2]];
    }
  }

  lemma FenceIs(w: string, s: string)
    requires forall i :: 0 <= i < |w| ==> !ThreeTicks(w + "```", i)
    ensures var t := "```" + w + "```" + s;
            MatchFence(t) == SpanOf(|w| + 6) && t[..|w| + 6] == "```" + w + "```" && t[|w| + 6..] == s
  {
    var t := "```" + w + "```" + s;
    var rest := w + "```" + s;
    assert t[3..] == rest;
    forall i | 0 <= i < |w| ensures !FenceAt(rest, i) {
      assert rest[i..i + 3] == (w + "```")[i..i + 3];
      assert !ThreeTicks(w + "```", i);
      ThreeTicksIff(rest, i);
    }
    assert FenceAt(rest, |w|);
    FindFenceIs(rest, |w|);
  }

  /** Fenced code: everything from three backticks up to the next three is copied as it is. */
  lemma FencesAreKept(w: string, s: string)
    requires forall i :: 0 <= i < |w| ==> !ThreeTicks(w + "```", i)
    ensures Escape("```" + w + "```" + s) == "```" + w + "```" + Escape(s)
  {
    FenceIs(w, s);
    var t := "```" + w + "```" + s;
    assert t[0] == '`';
    hide Escape, MatchFence, MatchQuoted;
    SpanFirst(t, |w| + 6);
  }

  /** Code: a span between two backticks is copied as it is, unless they are the beginning of a fence. */
  lemma CodeIsKept(w: string, s: string)
    requires forall i :: 0 <= i < |w| ==> w[i] != '`'
    requires w == "" && s != "" && s[0] == '`' ==> forall i :: !ThreeTicks(s[1..], i)
    ensures Escape("`" + w + "`" + s) == "`" + w + "`" + Escape(s)
  {
    QuotedIs('`', w, s);
    var t := "`" + w + "`" + s;
    NoFenceThere(w, s);
    assert t[0] == '`';
    hide Escape, MatchFence, MatchQuoted;
    SpanFirst(t, |w| + 2);
  }

  lemma NoFenceThere(w: string, s: string)
    requires forall i :: 0 <= i < |w| ==> w[i] != '`'
    requires w == "" && s != "" && s[0] == '`' ==> forall i :: !ThreeTicks(s[1..], i)
    ensures MatchFence("`" + w + "`" + s) == NoMatch
  {
    var t := "`" + w + "`" + s;
    if FenceAt(t, 0) {
      assert t[1] == (w + "`" + s)[0];
      assert w == "" && t[2] == s[0];
      assert t[3..] == s[1..];
      var r := FindFence(s[1..]);
      if r.Some? {
        ThreeTicksIff(s[1..], r.value);
      }
    }
  }

  /** Links: the delimiters stay, and both the caption and the target are escaped. */
  lemma LinksAreKept(caption: string, url: string, s: string)
    requires caption != "" && forall i :: 0 <= i < |caption| ==> caption[i] != ']'
    requires url != "" && forall i :: 0 <= i < |url| ==> url[i] != ')'
    ensures Escape("[" + caption + "](" + url + ")" + s)
         == "[" + Backslashed(caption) + "](" + Backslashed(url) + ")" + Escape(s)
  {
    var t := "[" + caption + "](" + url + ")" + s;
    LinkIs(caption, url, s);
    LinkParts(caption, url, s);
    hide *;
    LinkToken(t, caption, url);
    LinkBecomes(t, caption, url, s);
    LinkedText(Backslashed(caption), Backslashed(url));
  }

  lemma LinkToken(t: string, caption: string, url: string)
    requires t != "" && MatchAt(t) == LinkOf(|caption|, |url|) && |caption| + |url| + 4 <= |t|
    requires t[1..|caption| + 1] == caption && t[|caption| + 3..|caption| + |url| + 3] == url
    ensures First(t) == (Link(caption, url), |caption| + |url| + 4)
  {
    hide MatchAt;
  }

  lemma LinkedText(caption: string, url: string)
    ensures Linked(caption, url) == "[" + caption + "](" + url + ")"
  {
  }

  function Linked(caption: string, url: string): string {
    "[" + caption + "](" + url + ")"
  }

  /** A link, given by its parts. */
  lemma LinkBecomes(t: string, caption: string, url: string, s: string)
    requires t != "" && First(t).0 == Link(caption, url)
    requires t[First(t).1..] == s
    ensures Escape(t) == Linked(Backslashed(caption), Backslashed(url)) + Escape(s)
  {
    hide *;
    EscapeFirst(t);
    LinkedIs(caption, url);
    EscapeAllIs(caption);
    EscapeAllIs(url);
  }

  lemma LinkedIs(caption: string, url: string)
    ensures Escaped(Link(caption, url)) == Linked(EscapeAll(caption), EscapeAll(url))
  {
    hide EscapeAll;
  }

  lemma LinkParts(caption: string, url: string, s: string)
    ensures var t := "[" + caption + "](" + url + ")" + s;
            && |caption| + |url| + 4 <= |t|
            && t[1..|caption| + 1] == caption
            && t[|caption| + 3..|caption| + |url| + 3] == url
            && t[|caption| + |url| + 4..] == s
  {
  }

  lemma LinkIs(caption: string, url: string, s: string)
    requires caption != "" && forall i :: 0 <= i < |caption| ==> caption[i] != ']'
    requires url != "" && forall i :: 0 <= i < |url| ==> url[i] != ')'
    ensures MatchAt("[" + caption + "](" + url + ")" + s) == LinkOf(|caption|, |url|)
  {
    var t := "[" + caption + "](" + url + ")" + s;
    assert t[1..] == caption + "](" + url + ")" + s;
    FindIs(t[1..], ']', |caption|);
    assert t[|caption| + 2] == '(';
    assert t[|caption| + 3..] == url + ")" + s;
    FindIs(t[|caption| + 3..], ')', |url|);
  }

  /** The message begins with a delimiter that occurs again. */
  ghost predicate BeginsSpan(t: string) {
    t != "" && t[0] in "`*_~" && exists k :: 1 <= k < |t| && t[k] == t[0]
  }

  /** A bracket whose text, up to the first closing bracket at position k, is not empty and is directly
      followed by a parenthesis that is closed, but not at once. */
  ghost predicate LinkTo(t: string, k: nat) {
    && 2 <= k && k + 2 < |t| && t[0] == '[' && t[k] == ']' && (forall i :: 1 <= i < k ==> t[i] != ']')
    && t[k + 1] == '(' && t[k + 2] != ')' && exists j :: k + 3 <= j < |t| && t[j] == ')'
  }

  ghost predicate BeginsLink(t: string) {
    exists k :: LinkTo(t, k)
  }

  /** In all other cases the first character is escaped if it is one of the special ones, and copied if
      not. Together with the lemmas above this says what becomes of any message. */
  lemma OthersAreEscaped(t: string)
    requires t != "" && !BeginsSpan(t) && !BeginsLink(t)
    ensures Escape(t) == (if t[0] in "_*[]()~`>#+-=|{}.!\\" then "\\" else "") + [t[0]] + Escape(t[1..])
  {
    NoMatches(t);
    EscapeCharIs(t[0]);
    hide Escape, MatchAt, EscapeChar;
    PlainFirst(t);
  }

  lemma SpanShape(t: string)
    requires MatchSpan(t).SpanOf?
    ensures BeginsSpan(t)
  {
    hide Find, FindFence;
    if MatchFence(t).SpanOf? {
      assert t[1] == t[0];
    } else {
      var r := Find(t[1..], t[0]);
      assert t[r.value + 1] == t[0];
    }
  }

  lemma LinkShape(t: string)
    requires MatchLink(t).LinkOf?
    ensures BeginsLink(t)
  {
    var caption, url := MatchLink(t).caption, MatchLink(t).url;
    FindInTail(t, 1, ']', caption);
    FindInTail(t, caption + 3, ')', url);
    hide Find;
    assert LinkTo(t, caption + 1);
  }

  lemma FindInTail(t: string, from: nat, c: char, k: nat)
    requires from <= |t| && Find(t[from..], c) == Some(k)
    ensures from + k < |t| && t[from + k] == c && forall i :: from <= i < from + k ==> t[i] != c
  {
    hide Find;
    var tail := t[from..];
    assert tail[k] == c;
    forall i | from <= i < from + k ensures t[i] != c {
      assert tail[i - from] == t[i];
    }
  }

  lemma NoMatches(t: string)
    requires t != "" && !BeginsSpan(t) && !BeginsLink(t)
    ensures MatchAt(t) == NoMatch
  {
    hide MatchSpan, MatchLink, BeginsSpan, BeginsLink;
    if MatchSpan(t).SpanOf? {
      SpanShape(t);
    }
    if MatchLink(t).LinkOf? {
      LinkShape(t);
    }
  }
}
