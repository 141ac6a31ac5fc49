/** Message templates: placeholders ${name} are filled by one global replacement per variable, in
    the unspecified order in which a hash map yields its entries. */
module Template {
  import opened Basics

  // ---------------------------------------------------------------------------------------
  // Strings.

  predicate StartsWith(s: string, pattern: string) {
    |pattern| <= |s| && s[..|pattern|] == pattern
  }

  predicate Contains(s: string, pattern: string) {
    exists i :: 0 <= i <= |s| && StartsWith(s[i..], pattern)
  }

  /** All occurrences from left to right, without overlaps. */
  function Replace(s: string, pattern: string, value: string): string
    requires pattern != ""
  {
    if s == "" then ""
    else if StartsWith(s, pattern) then value + Replace(s[|pattern|..], pattern, value)
    else [s[0]] + Replace(s[1..], pattern, value)
  }

  predicate Free(s: string, c: char) {
    forall i :: 0 <= i < |s| ==> s[i] != c
  }

  function Placeholder(name: string): string {
    "${" + name + "}"
  }

  /** A name that can be a placeholder of its own: without dollar sign and closing brace. */
  predicate Name(name: string) {
    Free(name, '$') && Free(name, '}')
  }

  // ---------------------------------------------------------------------------------------
  // The substitution loop.

  function SubstituteAll(message: string, vars: map<string, string>, order: seq<string>): string
    requires forall k :: k in order ==> k in vars
  {
    if order == [] then message
    else
      var k := order[|order| - 1];
      Replace(SubstituteAll(message, vars, order[..|order| - 1]), Placeholder(k), vars[k])
  }

  /** The entries of a map in some order. */
  ghost predicate Enumerates(order: seq<string>, vars: map<string, string>) {
    Distinct(order) && forall k :: k in order <==> k in vars
  }

  method Substitute(template: string, vars: map<string, string>, order: seq<string>) returns (message: string)
    requires Enumerates(order, vars)
    ensures message == SubstituteAll(template, vars, order)
  {
    message := template;
    for i := 0 to |order|
      invariant message == SubstituteAll(template, vars, order[..i])
    {
      assert order[..i + 1][..i] == order[..i];
      message := Replace(message, Placeholder(order[i]), vars[order[i]]);
    }
    assert order[..|order|] == order;
  }

  // ---------------------------------------------------------------------------------------
  // The reference: one simultaneous pass from left to right.

  /** The name of the placeholder a string begins with: "${", a name, "}". */
  function HoleAt(t: string): (r: Option<string>)
    ensures r.Some? ==> Name(r.value) && StartsWith(t, Placeholder(r.value))
  {
    if !StartsWith(t, "${") then None
    else match Until(t[2..])
         case Some(name) =>
           assert t[..|name| + 3] == Placeholder(name);
           Some(name)
         case None => None
  }

  /** The text before the first closing brace, if no dollar sign comes before it. */
  function Until(s: string): (r: Option<string>)
    ensures r.Some? ==> Name(r.value) && |r.value| < |s| && s[..|r.value|] == r.value && s[|r.value|] == '}'
  {
    if s == "" || s[0] == '$' then None
    else if s[0] == '}' then Some("")
    else match Until(s[1..])
         case Some(name) => Some([s[0]] + name)
         case None => None
  }

  function OnePass(t: string, vars: map<string, string>): string
    decreases |t|
  {
    if t == "" then ""
    else match HoleAt(t)
         case Some(name) =>
           if name in vars then vars[name] + OnePass(t[|name| + 3..], vars) else [t[0]] + OnePass(t[1..], vars)
         case None => [t[0]] + OnePass(t[1..], vars)
  }

  // ---------------------------------------------------------------------------------------
  // Templates as pieces: other characters, dollar signs that begin no placeholder, placeholders.

  datatype Piece = Chr(c: char) | Dollar | Hole(name: string)

  predicate PieceOk(p: Piece) {
    match p
    case Chr(c) => c != '$'
    case Dollar => true
    case Hole(name) => Name(name)
  }

  predicate PiecesOk(ps: seq<Piece>) {
    forall p :: p in ps ==> PieceOk(p)
  }

  function Text(p: Piece): string {
    match p
    case Chr(c) => [c]
    case Dollar => "$"
    case Hole(name) => Placeholder(name)
  }

  function Render(ps: seq<Piece>): string {
    if ps == [] then "" else Text(ps[0]) + Render(ps[1..])
  }

  function Parse(t: string): (ps: seq<Piece>)
    ensures PiecesOk(ps)
    decreases |t|
  {
    if t == "" then []
    else if t[0] != '$' then [Chr(t[0])] + Parse(t[1..])
    else match HoleAt(t)
         case Some(name) => [Hole(name)] + Parse(t[|name| + 3..])
         case None => [Dollar] + Parse(t[1..])
  }

  function Chars(v: string): seq<Piece> {
    seq(|v|, i requires 0 <= i < |v| => Chr(v[i]))
  }

  /** All placeholders with a value filled in. */
  function Fill(ps: seq<Piece>, vars: map<string, string>): seq<Piece> {
    if ps == [] then []
    else (if ps[0].Hole? && ps[0].name in vars then Chars(vars[ps[0].name]) else [ps[0]]) + Fill(ps[1..], vars)
  }

  /** After an opening brace: a dollar sign or the end comes before any closing brace or placeholder. */
  predicate Open(ps: seq<Piece>) {
    ps == [] || ps[0].Dollar? || (ps[0].Chr? && ps[0].c != '}' && Open(ps[1..]))
  }

  /** After a dollar sign: nothing that follows can turn it into the beginning of a placeholder. */
  predicate Inert(ps: seq<Piece>) {
    ps == [] || ps[0].Dollar? || (ps[0].Chr? && (ps[0].c != '{' || Open(ps[1..])))
  }

  predicate Safe(ps: seq<Piece>) {
    ps == [] || ((ps[0].Dollar? ==> Inert(ps[1..])) && Safe(ps[1..]))
  }

  /** A template is safe unless an unfinished placeholder runs into a placeholder: "$" directly, or
      "${" and text without closing brace, in front of a placeholder. */
  predicate SafeTemplate(t: string) {
    Safe(Parse(t))
  }

  // ---------------------------------------------------------------------------------------
  // Parsing and rendering.

  lemma {:induction false} RenderConcat(ps: seq<Piece>, qs: seq<Piece>)
    ensures Render(ps + qs) == Render(ps) + Render(qs)
  {
    hide *;
    if ps == [] {
      RenderNil();
      assert ps + qs == qs;
    } else {
      var p, rest := ps[0], ps[1..];
      RenderConcat(rest, qs);
      assert ps == [p] + rest;
      Associative([p], rest, qs);
      RenderCons(p, rest + qs);
      RenderCons(p, rest);
      Associative(Text(p), Render(rest), Render(qs));
    }
  }

  lemma RenderNil()
    ensures Render([]) == ""
  {
  }

  lemma RenderCons(p: Piece, ps: seq<Piece>)
    ensures Render([p] + ps) == Text(p) + Render(ps)
  {
    assert ([p] + ps)[1..] == ps;
  }

  lemma {:induction false} RenderChars(v: string)
    ensures Render(Chars(v)) == v
  {
    if v != "" {
      RenderChars(v[1..]);
      assert Chars(v)[1..] == Chars(v[1..]);
    }
  }

  lemma {:induction false} ParseRenders(t: string)
    ensures Render(Parse(t)) == t
    decreases |t|
  {
    if t != "" {
      var p := Parse(t)[0];
      var n := if p.Hole? then |p.name| + 3 else 1;
      ParseStep(t);
      ParseRenders(t[n..]);
      RenderCons(p, Parse(t[n..]));
      hide Render, Parse, Text;
    }
  }

  /** Parsing splits off the text of the first piece. */
  lemma ParseStep(t: string)
    requires t != ""
    ensures var p := Parse(t)[0];
            var n := if p.Hole? then |p.name| + 3 else 1;
            n <= |t| && t == Text(p) + t[n..] && Parse(t) == [p] + Parse(t[n..])
  {
    hide HoleAt, Placeholder;
    if t[0] == '$' && HoleAt(t).Some? {
      PlaceholderBegins(t, HoleAt(t).value);
    } else {
      assert t == [t[0]] + t[1..];
    }
  }

  /** No dollar sign of a parsed template begins a placeholder. */
  ghost predicate Resolved(ps: seq<Piece>) {
    ps == [] || ((ps[0].Dollar? ==> HoleAt(Render(ps)) == None) && Resolved(ps[1..]))
  }

  lemma {:induction false} ParseResolves(t: string)
    ensures Resolved(Parse(t))
    decreases |t|
  {
    if t != "" {
      if t[0] == '$' && HoleAt(t).Some? {
        ParseResolves(t[|HoleAt(t).value| + 3..]);
        assert Parse(t)[1..] == Parse(t[|HoleAt(t).value| + 3..]);
      } else {
        ParseResolves(t[1..]);
        ParseRenders(t);
        assert Parse(t)[1..] == Parse(t[1..]);
      }
    }
  }

  lemma {:induction false} UntilFinds(name: string, tail: string)
    requires Name(name)
    ensures Until(name + "}" + tail) == Some(name)
  {
    var s := name + "}" + tail;
    if name != "" {
      UntilFinds(name[1..], tail);
      assert s[1..] == name[1..] + "}" + tail;
      assert [name[0]] + name[1..] == name;
    }
  }

  /** A placeholder is recognised whatever follows it. */
  lemma HoleFound(name: string, tail: string)
    requires Name(name)
    ensures HoleAt(Placeholder(name) + tail) == Some(name)
  {
    var s := Placeholder(name) + tail;
    assert s[..2] == "${";
    assert s[2..] == name + "}" + tail;
    UntilFinds(name, tail);
  }

  lemma HoleUnique(s: string, name: string)
    requires Name(name) && StartsWith(s, Placeholder(name))
    ensures HoleAt(s) == Some(name)
  {
    assert s == Placeholder(name) + s[|name| + 3..];
    HoleFound(name, s[|name| + 3..]);
  }

  // ---------------------------------------------------------------------------------------
  // One replacement on a list of pieces.

  /** No dollar sign is followed by the rest of the placeholder of k. */
  ghost predicate Blocked(ps: seq<Piece>, k: string) {
    ps == [] || ((ps[0].Dollar? ==> !StartsWith(Render(ps), Placeholder(k))) && Blocked(ps[1..], k))
  }

  lemma {:induction false} ReplaceSkips(front: string, s: string, k: string, v: string)
    requires Free(front, '$')
    ensures Replace(front + s, Placeholder(k), v) == front + Replace(s, Placeholder(k), v)
  {
    if front == "" {
      assert front + s == s;
    } else {
      var c, rest := front[0], front[1..];
      ReplaceSkips(rest, s, k, v);
      assert front + s == [c] + (rest + s);
      ReplaceOther(c, rest + s, k, v);
      hide *;
      Associative([c], rest, Replace(s, Placeholder(k), v));
      assert [c] + rest == front;
    }
  }

  lemma ReplaceOther(c: char, s: string, k: string, v: string)
    requires c != '$'
    ensures Replace([c] + s, Placeholder(k), v) == [c] + Replace(s, Placeholder(k), v)
  {
    assert ([c] + s)[1..] == s && ([c] + s)[0] == c && Placeholder(k)[0] == '$';
  }

  lemma ReplaceHole(name: string, s: string, k: string, v: string)
    requires Name(name) && Name(k)
    ensures Replace(Placeholder(name) + s, Placeholder(k), v)
         == (if name == k then v else Placeholder(name)) + Replace(s, Placeholder(k), v)
  {
    hide HoleAt;
    var t := Placeholder(name) + s;
    HoleFound(name, s);
    if name == k {
      assert t[..|Placeholder(k)|] == Placeholder(k) && t[|Placeholder(k)|..] == s;
    } else {
      if StartsWith(t, Placeholder(k)) {
        HoleUnique(t, k);
      }
      var inner := "{" + name + "}";
      assert t[1..] == inner + s;
      ReplaceSkips(inner, s, k, v);
      assert Placeholder(name) == "$" + inner;
    }
  }

  /** Where no dollar sign interferes, a global replacement fills exactly the placeholders of k. */
  lemma {:induction false} ReplaceFills(ps: seq<Piece>, k: string, v: string)
    requires PiecesOk(ps) && Name(k) && Blocked(ps, k)
    ensures Replace(Render(ps), Placeholder(k), v) == Render(Fill(ps, map[k := v]))
  {
    if ps != [] {
      var p, rest := ps[0], ps[1..];
      ReplaceFills(rest, k, v);
      var filled := if p.Hole? && p.name == k then Chars(v) else [p];
      RenderConcat(filled, Fill(rest, map[k := v]));
      assert Fill(ps, map[k := v]) == filled + Fill(rest, map[k := v]);
      assert PieceOk(p);
      match p {
        case Chr(c) => ReplaceSkips([c], Render(rest), k, v);
        case Dollar => ReplaceDollar(Render(rest), k, v);
        case Hole(name) =>
          ReplaceHole(name, Render(rest), k, v);
          RenderChars(v);
      }
    }
  }

  lemma ReplaceDollar(s: string, k: string, v: string)
    requires !StartsWith("$" + s, Placeholder(k))
    ensures Replace("$" + s, Placeholder(k), v) == "$" + Replace(s, Placeholder(k), v)
  {
    assert ("$" + s)[1..] == s;
  }

  // ---------------------------------------------------------------------------------------
  // Safe pieces stay safe, and block every placeholder.

  lemma {:induction false} OpenBlocks(ps: seq<Piece>, k: string)
    requires PiecesOk(ps) && Open(ps) && Name(k)
    ensures !StartsWith(Render(ps), k + "}")
  {
    if ps != [] && ps[0].Chr? && StartsWith(Render(ps), k + "}") {
      assert k != "";
      assert Render(ps)[1..] == Render(ps[1..]);
      assert Render(ps)[..|k| + 1][1..] == Render(ps[1..])[..|k|];
      assert (k + "}")[1..] == k[1..] + "}";
      OpenBlocks(ps[1..], k[1..]);
    } else if ps != [] && ps[0].Dollar? {
      assert Render(ps)[0] == '$';
      assert (k + "}")[0] != '$';
    }
  }

  lemma InertBlocks(ps: seq<Piece>, k: string)
    requires PiecesOk(ps) && Inert(ps) && Name(k)
    ensures !StartsWith("$" + Render(ps), Placeholder(k))
  {
    PlaceholderTail(Render(ps), k);
    if ps != [] && ps[0].Chr? && ps[0].c == '{' {
      assert Render(ps)[1..] == Render(ps[1..]);
      OpenBlocks(ps[1..], k);
    }
  }

  lemma PlaceholderTail(s: string, k: string)
    ensures StartsWith("$" + s, Placeholder(k)) ==> s != "" && s[0] == '{' && StartsWith(s[1..], k + "}")
  {
    var t := "$" + s;
    if StartsWith(t, Placeholder(k)) {
      assert t[..|k| + 3][1] == '{' && t[2..] == s[1..];
      assert t[..|k| + 3][2..] == k + "}" == s[1..][..|k| + 1];
    }
  }

  lemma {:induction false} SafeBlocks(ps: seq<Piece>, k: string)
    requires PiecesOk(ps) && Safe(ps) && Name(k)
    ensures Blocked(ps, k)
  {
    if ps != [] {
      SafeBlocks(ps[1..], k);
      if ps[0].Dollar? {
        InertBlocks(ps[1..], k);
      }
    }
  }

  lemma {:induction false} ResolvedBlocks(ps: seq<Piece>, k: string)
    requires Resolved(ps) && Name(k)
    ensures Blocked(ps, k)
  {
    if ps != [] {
      ResolvedBlocks(ps[1..], k);
      if ps[0].Dollar? && StartsWith(Render(ps), Placeholder(k)) {
        HoleUnique(Render(ps), k);
      }
    }
  }

  /** Values without dollar sign, names that can be placeholders. */
  predicate Admissible(vars: map<string, string>) {
    forall k :: k in vars ==> Name(k) && Free(vars[k], '$')
  }

  lemma {:induction false} FillOpen(ps: seq<Piece>, vars: map<string, string>)
    requires Open(ps)
    ensures Open(Fill(ps, vars))
  {
    if ps != [] && ps[0].Chr? {
      FillOpen(ps[1..], vars);
      assert Fill(ps, vars)[1..] == Fill(ps[1..], vars);
    }
  }

  lemma {:induction false} SafeChars(v: string, ps: seq<Piece>)
    requires Safe(ps)
    ensures Safe(Chars(v) + ps)
  {
    if v == "" {
      assert Chars(v) + ps == ps;
    } else {
      SafeChars(v[1..], ps);
      assert (Chars(v) + ps)[1..] == Chars(v[1..]) + ps;
    }
  }

  lemma {:induction false} FillSafe(ps: seq<Piece>, vars: map<string, string>)
    requires PiecesOk(ps) && Safe(ps) && Admissible(vars)
    ensures PiecesOk(Fill(ps, vars)) && Safe(Fill(ps, vars))
  {
    if ps != [] {
      var p, rest := ps[0], Fill(ps[1..], vars);
      FillSafe(ps[1..], vars);
      if p.Hole? && p.name in vars {
        SafeChars(vars[p.name], rest);
        assert PiecesOk(Chars(vars[p.name]));
      } else {
        assert Fill(ps, vars) == [p] + rest && Fill(ps, vars)[1..] == rest;
        assert PieceOk(p);
        if p.Dollar? {
          FillInert(ps[1..], vars);
        }
      }
    }
  }

  lemma FillInert(ps: seq<Piece>, vars: map<string, string>)
    requires Inert(ps)
    ensures Inert(Fill(ps, vars))
  {
    if ps != [] && ps[0].Chr? {
      assert Fill(ps, vars)[1..] == Fill(ps[1..], vars);
      if ps[0].c == '{' {
        FillOpen(ps[1..], vars);
      }
    }
  }

  // ---------------------------------------------------------------------------------------
  // The loop against the reference.

  function FillOne(p: Piece, vars: map<string, string>): seq<Piece> {
    if p.Hole? && p.name in vars then Chars(vars[p.name]) else [p]
  }

  lemma FillCons(p: Piece, ps: seq<Piece>, vars: map<string, string>)
    ensures Fill([p] + ps, vars) == FillOne(p, vars) + Fill(ps, vars)
  {
    assert ([p] + ps)[1..] == ps;
  }

  lemma {:induction false} FillConcat(ps: seq<Piece>, qs: seq<Piece>, vars: map<string, string>)
    ensures Fill(ps + qs, vars) == Fill(ps, vars) + Fill(qs, vars)
  {
    if ps == [] {
      FillNil(vars);
      assert ps + qs == qs;
    } else {
      var p, rest := ps[0], ps[1..];
      FillConcat(rest, qs, vars);
      assert ps == [p] + rest && ps + qs == [p] + (rest + qs);
      FillCons(p, rest + qs, vars);
      FillCons(p, rest, vars);
      Associative(FillOne(p, vars), Fill(rest, vars), Fill(qs, vars));
    }
    hide *;
  }

  lemma FillNil(vars: map<string, string>)
    ensures Fill([], vars) == []
  {
  }

  lemma {:induction false} FillChars(v: string, vars: map<string, string>)
    ensures Fill(Chars(v), vars) == Chars(v)
  {
    if v != "" {
      FillChars(v[1..], vars);
      assert Chars(v)[1..] == Chars(v[1..]);
      assert Chars(v) == [Chr(v[0])] + Chars(v[1..]);
    }
  }

  /** Filling with one more variable afterwards is filling with both at once. */
  lemma {:induction false} FillTwice(ps: seq<Piece>, vars: map<string, string>, k: string, v: string)
    requires k !in vars
    ensures Fill(Fill(ps, vars), map[k := v]) == Fill(ps, vars[k := v])
  {
    if ps != [] {
      var p, rest := ps[0], Fill(ps[1..], vars);
      FillTwice(ps[1..], vars, k, v);
      var first := if p.Hole? && p.name in vars then Chars(vars[p.name]) else [p];
      assert Fill(ps, vars) == first + rest;
      FillConcat(first, rest, map[k := v]);
      if p.Hole? && p.name in vars {
        FillChars(vars[p.name], map[k := v]);
      } else {
        assert Fill([p], map[k := v]) == (if p.Hole? && p.name == k then Chars(v) else [p]) + Fill([], map[k := v]);
      }
    }
  }

  function Restrict(vars: map<string, string>, order: seq<string>): map<string, string> {
    map k | k in order && k in vars :: vars[k]
  }

  lemma {:induction false} LoopFills(t: string, vars: map<string, string>, order: seq<string>)
    requires SafeTemplate(t) && Admissible(vars) && Distinct(order) && forall k :: k in order ==> k in vars
    ensures SubstituteAll(t, vars, order) == Render(Fill(Parse(t), Restrict(vars, order)))
  {
    if order == [] {
      ParseRenders(t);
      FillNothing(Parse(t), Restrict(vars, order));
    } else {
      var before, k := order[..|order| - 1], order[|order| - 1];
      LoopFills(t, vars, before);
      assert order == before + [k];
      assert Restrict(vars, before)[k := vars[k]] == Restrict(vars, order);
      FillsOneMore(Parse(t), Restrict(vars, before), k, vars[k]);
      hide Fill, Render, Parse, Replace, PiecesOk, Safe;
    }
  }

  lemma FillsOneMore(ps: seq<Piece>, done: map<string, string>, k: string, v: string)
    requires PiecesOk(ps) && Safe(ps) && Admissible(done) && k !in done && Name(k) && Free(v, '$')
    ensures Replace(Render(Fill(ps, done)), Placeholder(k), v) == Render(Fill(ps, done[k := v]))
  {
    FillSafe(ps, done);
    SafeBlocks(Fill(ps, done), k);
    ReplaceFills(Fill(ps, done), k, v);
    FillTwice(ps, done, k, v);
    hide *;
  }

  lemma {:induction false} FillNothing(ps: seq<Piece>, vars: map<string, string>)
    requires vars == map[]
    ensures Fill(ps, vars) == ps
  {
    if ps != [] {
      FillNothing(ps[1..], vars);
    }
  }

  lemma HoleBegins(s: string)
    ensures HoleAt(s).Some? ==> s != "" && s[0] == '$'
  {
    if HoleAt(s).Some? {
      assert s[..2][0] == '$';
    }
  }

  lemma {:induction false} OnePassSkips(front: string, s: string, vars: map<string, string>)
    requires Free(front, '$')
    ensures OnePass(front + s, vars) == front + OnePass(s, vars)
  {
    hide HoleAt;
    if front == "" {
      assert front + s == s;
    } else {
      OnePassSkips(front[1..], s, vars);
      assert (front + s)[1..] == front[1..] + s;
      assert (front + s)[0] == front[0] != '$';
      HoleBegins(front + s);
      assert [front[0]] + front[1..] == front;
    }
  }

  /** The reference pass fills the pieces of the template. */
  lemma {:induction false} OnePassFills(t: string, vars: map<string, string>)
    ensures OnePass(t, vars) == Render(Fill(Parse(t), vars))
    decreases |t|
  {
    if t != "" {
      var p := Parse(t)[0];
      var n := if p.Hole? then |p.name| + 3 else 1;
      OnePassFills(t[n..], vars);
      assert Parse(t) == [p] + Parse(t[n..]);
      FillCons(p, Parse(t[n..]), vars);
      RenderConcat(FillOne(p, vars), Fill(Parse(t[n..]), vars));
      OnePassStep(t, p, n, vars);
      hide OnePass, Parse, Fill, Render;
    }
  }

  lemma OnePassStep(t: string, p: Piece, n: nat, vars: map<string, string>)
    requires t != "" && p == Parse(t)[0] && n == (if p.Hole? then |p.name| + 3 else 1)
    ensures n <= |t| && OnePass(t, vars) == Render(FillOne(p, vars)) + OnePass(t[n..], vars)
  {
    if p.Hole? {
      ParsedHole(t);
      if p.name in vars {
        OnePassKnown(t, p.name, vars);
      } else {
        OnePassUnknown(t, p.name, vars);
        RenderOne(p);
      }
    } else {
      OnePassOther(t, vars);
      RenderOne(p);
    }
    hide OnePass, Parse, Render, HoleAt, Chars;
  }

  lemma ParsedHole(t: string)
    requires t != "" && Parse(t)[0].Hole?
    ensures HoleAt(t) == Some(Parse(t)[0].name) && |Parse(t)[0].name| + 3 <= |t|
  {
    hide HoleAt;
  }

  lemma OnePassKnown(t: string, name: string, vars: map<string, string>)
    requires t != "" && HoleAt(t) == Some(name) && name in vars
    ensures |name| + 3 <= |t| && OnePass(t, vars) == Render(Chars(vars[name])) + OnePass(t[|name| + 3..], vars)
  {
    hide HoleAt, Render, Chars;
    RenderChars(vars[name]);
  }

  lemma OnePassUnknown(t: string, name: string, vars: map<string, string>)
    requires t != "" && HoleAt(t) == Some(name) && name !in vars
    ensures |name| + 3 <= |t| && OnePass(t, vars) == Placeholder(name) + OnePass(t[|name| + 3..], vars)
  {
    PlaceholderBegins(t, name);
    var inner, tail := "{" + name + "}", t[|name| + 3..];
    assert OnePass(t, vars) == [t[0]] + OnePass(t[1..], vars) by {
      hide HoleAt, StartsWith, Placeholder;
    }
    hide *;
    InnerFree(name);
    OnePassSkips(inner, tail, vars);
    Associative("$", inner, OnePass(tail, vars));
    PlaceholderIs(name);
  }

  lemma PlaceholderIs(name: string)
    ensures Placeholder(name) == "$" + ("{" + name + "}")
  {
  }

  lemma InnerFree(name: string)
    requires Name(name)
    ensures Free("{" + name + "}", '$')
  {
  }

  lemma PlaceholderBegins(t: string, name: string)
    requires HoleAt(t) == Some(name)
    ensures Name(name) && |name| + 3 <= |t| && t[0] == '$' && [t[0]] == "$"
    ensures t[1..] == "{" + name + "}" + t[|name| + 3..]
    ensures t == Placeholder(name) + t[|name| + 3..]
  {
    hide HoleAt;
    var tail := t[|name| + 3..];
    assert t == Placeholder(name) + tail;
    assert (Placeholder(name) + tail)[1..] == "{" + name + "}" + tail;
    assert (Placeholder(name) + tail)[0] == '$';
  }

  lemma OnePassOther(t: string, vars: map<string, string>)
    requires t != "" && !Parse(t)[0].Hole?
    ensures OnePass(t, vars) == Text(Parse(t)[0]) + OnePass(t[1..], vars)
  {
    hide HoleAt;
    HoleBegins(t);
  }

  lemma RenderOne(p: Piece)
    ensures Render([p]) == Text(p)
  {
    assert [p][1..] == [];
  }

  /** For a safe template the loop is one simultaneous substitution, whatever the order. */
  lemma SafeMeansOnePass(t: string, vars: map<string, string>, order: seq<string>)
    requires SafeTemplate(t) && Admissible(vars) && Enumerates(order, vars)
    ensures SubstituteAll(t, vars, order) == OnePass(t, vars)
  {
    LoopFills(t, vars, order);
    assert Restrict(vars, order) == vars;
    OnePassFills(t, vars);
  }

  // ---------------------------------------------------------------------------------------
  // Unsafe templates do depend on the order.

  /** Deleting all occurrences shortens a string that has one. */
  lemma {:induction false} DeletingShortens(s: string, pattern: string)
    requires pattern != ""
    ensures |Replace(s, pattern, "")| <= |s|
    ensures Contains(s, pattern) ==> |Replace(s, pattern, "")| < |s|
    decreases |s|
  {
    if s != "" {
      if StartsWith(s, pattern) {
        DeletingShortens(s[|pattern|..], pattern);
      } else {
        DeletingShortens(s[1..], pattern);
        if i :| 0 <= i <= |s| && StartsWith(s[i..], pattern) {
          assert s[0..] == s;
          assert s[i..] == s[1..][i - 1..];
        }
      }
    }
  }

  lemma ContainsLater(front: string, s: string, pattern: string)
    requires Contains(s, pattern)
    ensures Contains(front + s, pattern)
  {
    var i :| 0 <= i <= |s| && StartsWith(s[i..], pattern);
    assert (front + s)[|front| + i..] == s[i..];
  }

  /** After an opening brace: the text up to a placeholder, if no closing brace comes before it. */
  function RunsInto(ps: seq<Piece>): Option<(string, string)> {
    if ps == [] || ps[0].Dollar? then None
    else if ps[0].Hole? then Some(("", ps[0].name))
    else if ps[0].c == '}' then None
    else match RunsInto(ps[1..])
         case Some(r) => Some(([ps[0].c] + r.0, r.1))
         case None => None
  }

  lemma {:induction false} RunIsName(ps: seq<Piece>)
    requires PiecesOk(ps) && RunsInto(ps).Some?
    ensures var (text, k) := RunsInto(ps).value; Name(text) && Name(k) && Hole(k) in ps
  {
    assert PieceOk(ps[0]);
    if ps[0].Chr? {
      RunIsName(ps[1..]);
    }
  }

  lemma {:induction false} RunFilled(ps: seq<Piece>, vars: map<string, string>)
    requires RunsInto(ps).Some? && RunsInto(ps).value.1 in vars
    ensures var (text, k) := RunsInto(ps).value; StartsWith(Render(Fill(ps, vars)), text + vars[k])
  {
    var (text, k) := RunsInto(ps).value;
    var rest := Fill(ps[1..], vars);
    assert ps == [ps[0]] + ps[1..];
    FillCons(ps[0], ps[1..], vars);
    RenderConcat(FillOne(ps[0], vars), rest);
    if ps[0].Hole? {
      RenderChars(vars[k]);
    } else {
      RunFilled(ps[1..], vars);
      RenderOne(ps[0]);
      var shorter := text[1..] + vars[k];
      assert text + vars[k] == [ps[0].c] + shorter;
      assert Render(Fill(ps, vars)) == [ps[0].c] + Render(rest);
      assert ([ps[0].c] + Render(rest))[..|shorter| + 1] == [ps[0].c] + Render(rest)[..|shorter|];
    }
  }

  /** What is neither open nor runs into a placeholder closes by itself. */
  lemma {:induction false} ElseCloses(ps: seq<Piece>)
    requires PiecesOk(ps) && !Open(ps) && RunsInto(ps).None?
    ensures Until(Render(ps)).Some?
  {
    assert PieceOk(ps[0]);
    assert Render(ps)[0] == ps[0].c && Render(ps)[1..] == Render(ps[1..]);
    if ps[0].c != '}' {
      ElseCloses(ps[1..]);
    }
  }

  /** A dollar sign that is not inert can be completed: some value w of a placeholder k of the
      template makes the placeholder of another name c appear, and c can be made as long as wanted. */
  lemma CompleteDollar(ps: seq<Piece>, x: string) returns (k: string, w: string, c: string)
    requires ps != [] && ps[0].Dollar? && !Inert(ps[1..]) && PiecesOk(ps) && HoleAt(Render(ps)) == None && Name(x)
    ensures Name(k) && Free(w, '$') && Name(c) && |x| <= |c| && Hole(k) in ps
    ensures StartsWith(Render(Fill(ps, map[k := w])), Placeholder(c))
  {
    hide Fill, Render, HoleAt, Open, StartsWith;
    assert PieceOk(ps[1]);
    if ps[1].Hole? {
      k, w, c := ps[1].name, "{" + x + "}", x;
      CompleteBare(ps, x);
    } else {
      var inner := ps[2..];
      assert ps == [Dollar, Chr('{')] + inner;
      assert ps[1..][1..] == inner;
      BraceRuns(ps, inner);
      RunIsName(inner);
      k := RunsInto(inner).value.1;
      w, c := x + "}", RunsInto(inner).value.0 + x;
      CompleteBraced(ps, inner, x);
    }
  }

  lemma CompleteBare(ps: seq<Piece>, x: string)
    requires |ps| >= 2 && ps[0].Dollar? && ps[1].Hole?
    ensures StartsWith(Render(Fill(ps, map[ps[1].name := "{" + x + "}"])), Placeholder(x))
  {
    var rest := ps[1..];
    var w := "{" + x + "}";
    var vars := map[ps[1].name := w];
    assert ps == [Dollar] + rest;
    assert StartsWith(Render(Fill(rest, vars)), w) by {
      RunFilled(rest, vars);
      assert "" + w == w;
    }
    FillCons(Dollar, rest, vars);
    RenderCons(Dollar, Fill(rest, vars));
    PlaceholderIs(x);
    PrefixCons("$", Render(Fill(rest, vars)), w);
    hide RunsInto, Fill, Render, StartsWith, Placeholder;
  }

  lemma BraceRuns(ps: seq<Piece>, inner: seq<Piece>)
    requires ps == [Dollar, Chr('{')] + inner && PiecesOk(inner)
    requires HoleAt(Render(ps)) == None && !Open(inner)
    ensures RunsInto(inner).Some?
  {
    RenderTwo(inner);
    assert Render(ps)[..2] == "${" && Render(ps)[2..] == Render(inner);
    if RunsInto(inner).None? {
      ElseCloses(inner);
    }
  }

  lemma RenderTwo(inner: seq<Piece>)
    ensures Render([Dollar, Chr('{')] + inner) == "${" + Render(inner)
  {
    assert [Dollar, Chr('{')] + inner == [Dollar] + ([Chr('{')] + inner);
    RenderCons(Dollar, [Chr('{')] + inner);
    RenderCons(Chr('{'), inner);
    hide Render;
  }

  lemma CompleteBraced(ps: seq<Piece>, inner: seq<Piece>, x: string)
    requires ps == [Dollar, Chr('{')] + inner && RunsInto(inner).Some?
    ensures var (text, k) := RunsInto(inner).value;
            StartsWith(Render(Fill(ps, map[k := x + "}"])), Placeholder(text + x))
  {
    var (text, k) := RunsInto(inner).value;
    var w := x + "}";
    var vars := map[k := w];
    RunFilled(inner, vars);
    hide RunsInto, Fill, Render;
    assert ps == [Dollar] + ([Chr('{')] + inner);
    FillCons(Dollar, [Chr('{')] + inner, vars);
    FillCons(Chr('{'), inner, vars);
    assert Fill(ps, vars) == [Dollar, Chr('{')] + Fill(inner, vars);
    RenderTwo(Fill(inner, vars));
    assert Placeholder(text + x) == "${" + (text + w);
    PrefixCons("${", Render(Fill(inner, vars)), text + w);
  }

  lemma PrefixCons(front: string, s: string, pattern: string)
    requires StartsWith(s, pattern)
    ensures StartsWith(front + s, front + pattern)
  {
    assert (front + s)[..|front| + |pattern|] == front + s[..|pattern|];
  }

  lemma {:induction false} CompleteSome(ps: seq<Piece>, x: string) returns (k: string, w: string, c: string)
    requires PiecesOk(ps) && Resolved(ps) && !Safe(ps) && Name(x)
    ensures Name(k) && Free(w, '$') && Name(c) && |x| <= |c| && Hole(k) in ps
    ensures Contains(Render(Fill(ps, map[k := w])), Placeholder(c))
  {
    if ps[0].Dollar? && !Inert(ps[1..]) {
      k, w, c := CompleteDollar(ps, x);
      var s := Render(Fill(ps, map[k := w]));
      assert s[0..] == s;
    } else {
      k, w, c := CompleteSome(ps[1..], x);
      var vars := map[k := w];
      assert ps == [ps[0]] + ps[1..];
      FillCons(ps[0], ps[1..], vars);
      RenderConcat(FillOne(ps[0], vars), Fill(ps[1..], vars));
      ContainsLater(Render(FillOne(ps[0], vars)), Render(Fill(ps[1..], vars)), Placeholder(c));
    }
  }

  lemma {:induction false} HoleFits(ps: seq<Piece>, name: string)
    requires Hole(name) in ps
    ensures |name| < |Render(ps)|
  {
    if ps[0] != Hole(name) {
      HoleFits(ps[1..], name);
    }
  }

  lemma {:induction false} FillIgnores(ps: seq<Piece>, vars: map<string, string>, c: string, v: string)
    requires Hole(c) !in ps && c !in vars
    ensures Fill(ps, vars[c := v]) == Fill(ps, vars)
  {
    if ps != [] {
      assert ps == [ps[0]] + ps[1..];
      FillIgnores(ps[1..], vars, c, v);
      FillCons(ps[0], ps[1..], vars);
      FillCons(ps[0], ps[1..], vars[c := v]);
    }
  }

  /** The completed placeholder can be made longer than anything in the template. */
  lemma CompleteFresh(t: string) returns (k: string, w: string, c: string)
    requires !SafeTemplate(t)
    ensures Name(k) && Free(w, '$') && Name(c) && k != c && Hole(c) !in Parse(t)
    ensures Contains(Render(Fill(Parse(t), map[k := w])), Placeholder(c))
  {
    ParseRenders(t);
    ParseResolves(t);
    var x := seq(|t| + 1, _ => 'x');
    k, w, c := CompleteSome(Parse(t), x);
    hide *;
    HoleFits(Parse(t), k);
    if Hole(c) in Parse(t) {
      HoleFits(Parse(t), c);
    }
  }

  /** An unsafe template has admissible variables for which two orders disagree; one of the orders
      still gives the simultaneous substitution. */
  lemma UnsafeDisagrees(t: string) returns (vars: map<string, string>, good: seq<string>, bad: seq<string>)
    requires !SafeTemplate(t)
    ensures Admissible(vars) && Enumerates(good, vars) && Enumerates(bad, vars)
    ensures SubstituteAll(t, vars, good) == OnePass(t, vars) != SubstituteAll(t, vars, bad)
  {
    var k, w, c := CompleteFresh(t);
    vars, good, bad := map[k := w][c := ""], [c, k], [k, c];
    TwoVariables(k, w, c);
    hide *;
    BothOrders(t, k, w, c);
    FillIgnores(Parse(t), map[k := w], c, "");
    OnePassFills(t, vars);
    DeletingShortens(Render(Fill(Parse(t), map[k := w])), Placeholder(c));
  }

  lemma TwoVariables(k: string, w: string, c: string)
    requires Name(k) && Free(w, '$') && Name(c) && k != c
    ensures var vars := map[k := w][c := ""];
            Admissible(vars) && Enumerates([c, k], vars) && Enumerates([k, c], vars)
  {
  }

  lemma BothOrders(t: string, k: string, w: string, c: string)
    requires Name(k) && Name(c) && k != c && Hole(c) !in Parse(t)
    ensures var vars := map[k := w][c := ""];
            var filled := Render(Fill(Parse(t), map[k := w]));
            && SubstituteAll(t, vars, [c, k]) == filled
            && SubstituteAll(t, vars, [k, c]) == Replace(filled, Placeholder(c), "")
  {
    var ps, vars := Parse(t), map[k := w][c := ""];
    ParseRenders(t);
    ParseResolves(t);
    ResolvedBlocks(ps, k);
    ResolvedBlocks(ps, c);
    ReplaceFills(ps, k, w);
    ReplaceFills(ps, c, "");
    FillIgnores(ps, map[], c, "");
    FillNothing(ps, map[]);
    assert map[][c := ""] == map[c := ""];
    assert [c, k][..1] == [c] && [k, c][..1] == [k] && [c][..0] == [] && [k][..0] == [];
    assert SubstituteAll(t, vars, [c]) == Replace(t, Placeholder(c), "") == t;
    assert SubstituteAll(t, vars, [k]) == Replace(t, Placeholder(k), w);
  }

  /** For instance: "${a${b}}" with b = "X}" and aX = "". */
  lemma NestedPlaceholder()
    ensures var vars := map["b" := "X}", "aX" := ""];
            && !SafeTemplate("${a${b}}") && Admissible(vars)
            && SubstituteAll("${a${b}}", vars, ["b", "aX"]) == "}"
            && SubstituteAll("${a${b}}", vars, ["aX", "b"]) == "${aX}}"
  {
    var vars, t := map["b" := "X}", "aX" := ""], "${a${b}}";
    NestedResults();
    assert Admissible(vars) && Enumerates(["b", "aX"], vars) && Enumerates(["aX", "b"], vars);
    assert "}" != "${aX}}";
    hide *;
    if SafeTemplate(t) {
      SafeMeansOnePass(t, vars, ["b", "aX"]);
      SafeMeansOnePass(t, vars, ["aX", "b"]);
    }
  }

  lemma NestedResults()
    ensures var vars := map["b" := "X}", "aX" := ""];
            && SubstituteAll("${a${b}}", vars, ["b", "aX"]) == "}"
            && SubstituteAll("${a${b}}", vars, ["aX", "b"]) == "${aX}}"
  {
    var vars, t := map["b" := "X}", "aX" := ""], "${a${b}}";
    NestedFirst("b", "X}");
    NestedFirst("aX", "");
    NestedSecond();
    hide *;
    TwoInOrder(t, vars, "b", "aX");
    TwoInOrder(t, vars, "aX", "b");
    assert "${a" + "X}" + "}" == "${aX}}";
  }

  lemma TwoInOrder(t: string, vars: map<string, string>, j: string, k: string)
    requires j in vars && k in vars
    ensures SubstituteAll(t, vars, [j, k])
         == Replace(Replace(t, Placeholder(j), vars[j]), Placeholder(k), vars[k])
  {
    assert SubstituteAll(t, vars, []) == t;
    hide *;
    assert [] + [j] == [j] && [j] + [k] == [j, k];
    SubstituteSnoc(t, vars, [], j);
    SubstituteSnoc(t, vars, [j], k);
  }

  lemma NestedSecond()
    ensures Replace("${aX}}", Placeholder("aX"), "") == "}"
  {
    ReplaceHole("aX", "}", "aX", "");
    assert Placeholder("aX") + "}" == "${aX}}";
    assert "}"[1..] == "" && Replace("}", Placeholder("aX"), "") == "}";
  }

  lemma NestedFirst(k: string, v: string)
    requires k in {"b", "aX"}
    ensures Replace("${a${b}}", Placeholder(k), v) == if k == "b" then "${a" + v + "}" else "${a${b}}"
  {
    var t := "${a${b}}";
    ReplaceHole("b", "}", k, v);
    assert Placeholder("b") + "}" == "${b}}";
    assert t[3..] == "${b}}";
    var r := Replace("${b}}", Placeholder(k), v);
    assert t[1..] == "{a" + "${b}}" && t[2..] == "a${b}}";
    assert Replace("}", Placeholder(k), v) == "}" by {
      assert "}"[1..] == "";
    }
    ReplaceSkips("{a", "${b}}", k, v);
    assert !StartsWith(t, Placeholder(k)) by {
      assert t[2] == 'a';
      if k == "aX" {
        assert Placeholder("aX")[3] == 'X' && t[3] == '$';
      } else {
        assert Placeholder("b")[2] == 'b';
      }
    }
    assert Replace(t, Placeholder(k), v) == ['$'] + Replace(t[1..], Placeholder(k), v);
  }

  /** Exactly when the order in which the hash map yields its entries does not matter: for every
      admissible set of variables all orders give the same message if and only if the template is
      safe; and then the message is the one of a single simultaneous substitution. */
  lemma OrderIrrelevantIffSafe(t: string)
    ensures SafeTemplate(t) <==>
      (forall vars, o1, o2 :: Admissible(vars) && Enumerates(o1, vars) && Enumerates(o2, vars) ==>
         SubstituteAll(t, vars, o1) == SubstituteAll(t, vars, o2))
    ensures SafeTemplate(t) <==>
      (forall vars, order :: Admissible(vars) && Enumerates(order, vars) ==>
         SubstituteAll(t, vars, order) == OnePass(t, vars))
  {
    if SafeTemplate(t) {
      forall vars, order | Admissible(vars) && Enumerates(order, vars)
        ensures SubstituteAll(t, vars, order) == OnePass(t, vars)
      {
        SafeMeansOnePass(t, vars, order);
      }
    } else {
      var vars, good, bad := UnsafeDisagrees(t);
    }
  }

  lemma ParseCons(p: Piece, tail: string)
    requires PieceOk(p) && !p.Dollar?
    ensures Parse(Text(p) + tail) == [p] + Parse(tail)
  {
    var s := Text(p) + tail;
    match p
    case Chr(c) => assert s[1..] == tail;
    case Hole(name) =>
      HoleFound(name, tail);
      assert s[|name| + 3..] == tail;
  }

  /** The usual templates are safe: other text without dollar sign, and complete placeholders. */
  lemma {:induction false} CompleteIsSafe(ps: seq<Piece>)
    requires PiecesOk(ps) && forall p :: p in ps ==> !p.Dollar?
    ensures Parse(Render(ps)) == ps && SafeTemplate(Render(ps))
  {
    hide Text, Parse;
    if ps == [] {
      ParseNothing();
    } else {
      assert PieceOk(ps[0]) && !ps[0].Dollar?;
      CompleteIsSafe(ps[1..]);
      ParseCons(ps[0], Render(ps[1..]));
    }
  }

  lemma ParseNothing()
    ensures Parse("") == []
  {
  }

  // ---------------------------------------------------------------------------------------
  // Dollar signs in a value.

  lemma {:induction false} HoleOccurs(ps: seq<Piece>, name: string)
    requires Hole(name) in ps
    ensures Contains(Render(ps), Placeholder(name))
  {
    assert ps == [ps[0]] + ps[1..];
    RenderCons(ps[0], ps[1..]);
    hide Render;
    if ps[0] == Hole(name) {
      var tail := Render(ps[1..]);
      assert (Placeholder(name) + tail)[0..][..|Placeholder(name)|] == Placeholder(name);
    } else {
      HoleOccurs(ps[1..], name);
      ContainsLater(Text(ps[0]), Render(ps[1..]), Placeholder(name));
    }
  }

  /** A placeholder that does not occur is not replaced. */
  lemma AbsentUnchanged(s: string, c: string, w: string)
    requires Name(c) && Hole(c) !in Parse(s)
    ensures Replace(s, Placeholder(c), w) == s
  {
    ParseRenders(s);
    ParseResolves(s);
    ResolvedBlocks(Parse(s), c);
    hide Parse, Render, Replace, Fill, Blocked, Resolved;
    ReplaceFills(Parse(s), c, w);
    FillIgnores(Parse(s), map[], c, w);
    FillNothing(Parse(s), map[]);
    assert map[][c := w] == map[c := w];
  }

  lemma LoneReplaced(k: string, c: string, w: string)
    requires Name(k) && Name(c)
    ensures Replace(Placeholder(k), Placeholder(c), w) == if c == k then w else Placeholder(k)
  {
    ReplaceHole(k, "", c, w);
    assert Placeholder(k) + "" == Placeholder(k) && w + "" == w;
  }

  lemma SubstituteSnoc(t: string, vars: map<string, string>, init: seq<string>, k: string)
    requires k in vars && forall n :: n in init ==> n in vars
    ensures SubstituteAll(t, vars, init + [k]) == Replace(SubstituteAll(t, vars, init), Placeholder(k), vars[k])
  {
    assert (init + [k])[..|init|] == init;
  }

  /** A value without foreign placeholders comes out unchanged, in every order. */
  lemma {:induction false} ValueSurvives(k: string, v: string, vars: map<string, string>, order: seq<string>)
    requires Name(k) && k in vars && vars[k] == v && Distinct(order)
    requires forall n :: n in order ==> n in vars && Name(n) && (n == k || Hole(n) !in Parse(v))
    ensures SubstituteAll(Placeholder(k), vars, order) == if k in order then v else Placeholder(k)
  {
    if order != [] {
      var init, n := order[..|order| - 1], order[|order| - 1];
      assert order == init + [n];
      ValueSurvives(k, v, vars, init);
      SubstituteSnoc(Placeholder(k), vars, init, n);
      hide SubstituteAll, Replace, Parse, Placeholder;
      LoneReplaced(k, n, vars[n]);
      if n != k {
        AbsentUnchanged(v, n, vars[n]);
      }
    }
  }

  lemma {:induction false} NotReached(k: string, vars: map<string, string>, order: seq<string>)
    requires Name(k) && k !in order && forall n :: n in order ==> n in vars && Name(n)
    ensures SubstituteAll(Placeholder(k), vars, order) == Placeholder(k)
  {
    if order != [] {
      var init, n := order[..|order| - 1], order[|order| - 1];
      assert order == init + [n];
      NotReached(k, vars, init);
      SubstituteSnoc(Placeholder(k), vars, init, n);
      LoneReplaced(k, n, vars[n]);
      hide *;
    }
  }

  /** Empty values never lengthen a message. */
  lemma {:induction false} OnlyShortens(t: string, vars: map<string, string>, a: seq<string>, b: seq<string>)
    requires forall n :: n in a ==> n in vars
    requires forall n :: n in b ==> n in vars && vars[n] == ""
    ensures |SubstituteAll(t, vars, a + b)| <= |SubstituteAll(t, vars, a)|
  {
    hide *;
    if b == [] {
      assert a + b == a;
    } else {
      var init, n := b[..|b| - 1], b[|b| - 1];
      OnlyShortens(t, vars, a, init);
      assert a + b == (a + init) + [n];
      SubstituteSnoc(t, vars, a + init, n);
      PlaceholderIs(n);
      DeletingShortens(SubstituteAll(t, vars, a + init), Placeholder(n));
    }
  }

  function Without(names: seq<string>, k: string): seq<string> {
    if names == [] then []
    else if names[|names| - 1] == k then Without(names[..|names| - 1], k)
    else Without(names[..|names| - 1], k) + [names[|names| - 1]]
  }

  lemma {:induction false} WithoutMembers(names: seq<string>, k: string)
    requires Distinct(names)
    ensures Distinct(Without(names, k)) && forall n :: n in Without(names, k) <==> n in names && n != k
  {
    if names != [] {
      var init, n := names[..|names| - 1], names[|names| - 1];
      WithoutMembers(init, k);
      assert names == init + [n];
      DistinctAppend(Without(init, k), [n]);
    }
  }

  /** With empty values for the others: if k comes last, its value comes out; if k comes first, the
      placeholder of c in its value is lost. */
  lemma ForeignPlaceholderMatters(k: string, v: string, c: string, names: seq<string>)
    returns (vars: map<string, string>, first: seq<string>, last: seq<string>)
    requires Distinct(names) && k in names && c in names && c != k && forall n :: n in names ==> Name(n)
    requires Hole(c) in Parse(v)
    ensures vars.Keys == Elems(names) && vars[k] == v && Enumerates(first, vars) && Enumerates(last, vars)
    ensures SubstituteAll(Placeholder(k), vars, last) == v
    ensures |SubstituteAll(Placeholder(k), vars, first)| < |v|
  {
    vars := map n | n in Elems(names) :: if n == k then v else "";
    var others := Without(names, k);
    var rest := Without(others, c);
    last, first := others + [k], [k, c] + rest;
    WithoutMembers(names, k);
    Listings(names, k, c, vars);
    assert vars[k] == v && vars[c] == "" && (forall n :: n in rest ==> vars[n] == "");
    hide *;
    NotReached(k, vars, others);
    SubstituteSnoc(Placeholder(k), vars, others, k);
    LoneReplaced(k, k, v);
    ReplacesInValue(k, v, c, vars);
    OnlyShortens(Placeholder(k), vars, [k, c], rest);
  }

  lemma Listings(names: seq<string>, k: string, c: string, vars: map<string, string>)
    requires Distinct(names) && k in names && c in names && c != k && vars.Keys == Elems(names)
    ensures var others := Without(names, k);
            && Enumerates(others + [k], vars) && Enumerates([k, c] + Without(others, c), vars)
            && (forall n :: n in Without(others, c) ==> n in names && n != k)
  {
    var others := Without(names, k);
    WithoutMembers(names, k);
    WithoutMembers(others, c);
    hide Without;
    DistinctAppend(others, [k]);
    assert Distinct([k, c] + Without(others, c)) by {
      DistinctPrepend(c, Without(others, c));
      DistinctPrepend(k, [c] + Without(others, c));
      assert [k] + ([c] + Without(others, c)) == [k, c] + Without(others, c);
    }
    assert forall n :: n in [k, c] + Without(others, c) <==> n == k || n == c || n in Without(others, c);
    assert forall n :: n in vars <==> n in names;
  }

  lemma DistinctPrepend(x: string, s: seq<string>)
    requires Distinct(s) && x !in s
    ensures Distinct([x] + s)
  {
  }

  lemma ReplacesInValue(k: string, v: string, c: string, vars: map<string, string>)
    requires Name(k) && Name(c) && c != k && k in vars && vars[k] == v && c in vars && vars[c] == ""
    requires Hole(c) in Parse(v)
    ensures |SubstituteAll(Placeholder(k), vars, [k, c])| < |v|
  {
    ParseRenders(v);
    HoleOccurs(Parse(v), c);
    hide Replace, Parse, Render, Placeholder, Contains;
    assert [] + [k] == [k] && [k] + [c] == [k, c];
    SubstituteSnoc(Placeholder(k), vars, [], k);
    SubstituteSnoc(Placeholder(k), vars, [k], c);
    LoneReplaced(k, k, v);
    PlaceholderIs(c);
    DeletingShortens(v, Placeholder(c));
  }

  /** Dollar signs in a value are harmless exactly as long as they do not spell the placeholder of
      another variable: for the template that is the single placeholder of k, and the value v of k, all
      orders agree for all values of the other variables if and only if v holds no such placeholder. */
  lemma ValueHarmlessIff(k: string, v: string, names: seq<string>)
    requires Distinct(names) && k in names && forall n :: n in names ==> Name(n)
    ensures (forall vars: map<string, string>, o1, o2 ::
               vars.Keys == Elems(names) && k in vars && vars[k] == v && Enumerates(o1, vars)
                 && Enumerates(o2, vars) ==>
                 SubstituteAll(Placeholder(k), vars, o1) == SubstituteAll(Placeholder(k), vars, o2))
            <==> (forall c :: c in names && c != k ==> Hole(c) !in Parse(v))
  {
    if forall c :: c in names && c != k ==> Hole(c) !in Parse(v) {
      forall vars: map<string, string>, order | vars.Keys == Elems(names) && k in vars && vars[k] == v
        && Enumerates(order, vars)
        ensures SubstituteAll(Placeholder(k), vars, order) == v
      {
        ValueSurvives(k, v, vars, order);
      }
    } else {
      var c :| c in names && c != k && Hole(c) in Parse(v);
      var vars, first, last := ForeignPlaceholderMatters(k, v, c, names);
      assert vars.Keys == Elems(names) && k in vars && vars[k] == v && Enumerates(first, vars)
        && Enumerates(last, vars);
    }
  }
}
