/** The whole formatter: the variables, then the functions section, then the events section. */
module Formatter {
  import opened Decimal
  import opened MatchReasons
  import opened Sorting
  import opened Template

  function SectionText(vars: map<string, string>, order: seq<string>, prefix: string): string
    requires prefix != ""
  {
    Section(vars, order, prefix).GetOr("")
  }

  /** A section goes in only if the original template asks for it. */
  function PutSection(template: string, message: string, vars: map<string, string>, order: seq<string>,
      prefix: string): string
    requires prefix != ""
  {
    if Contains(template, Placeholder(prefix))
    then Replace(message, Placeholder(prefix), SectionText(vars, order, prefix))
    else message
  }

  function Format(template: string, vars: map<string, string>, order: seq<string>): string
    requires forall k :: k in order ==> k in vars
  {
    var message := SubstituteAll(template, vars, order);
    PutSection(template, PutSection(template, message, vars, order, "functions"), vars, order, "events")
  }

  method FormatTemplate(template: string, vars: map<string, string>, order: seq<string>) returns (message: string)
    requires Enumerates(order, vars)
    ensures message == Format(template, vars, order)
  {
    hide SubstituteAll, Section, Replace, Contains, Enumerates;
    assert Placeholder("functions") == "${functions}" && Placeholder("events") == "${events}";
    message := Substitute(template, vars, order);
    if Contains(template, "${functions}") {
      var reasons := BuildMatchReasons(vars, order, "functions");
      match reasons
      case Some(text) => message := Replace(message, "${functions}", text);
      case None => message := Replace(message, "${functions}", "");
    }
    if Contains(template, "${events}") {
      var reasons := BuildMatchReasons(vars, order, "events");
      match reasons
      case Some(text) => message := Replace(message, "${events}", text);
      case None => message := Replace(message, "${events}", "");
    }
  }

  // ---------------------------------------------------------------------------------------
  // The sections contain no dollar sign if the variables contain none.

  lemma {:induction false} DigitsFree(s: string)
    requires AllDigits(s)
    ensures Free(s, '$')
  {
    forall i | 0 <= i < |s| ensures s[i] != '$' {
      assert IsDigit(s[i]);
    }
  }

  lemma {:induction false} ParamLinesFree(params: seq<Param>)
    requires forall p :: p in params ==> Free(p.name, '$') && Free(p.value, '$')
    ensures Free(ParamLines(params), '$')
  {
    if params != [] {
      ParamLinesFree(params[..|params| - 1]);
      assert params[|params| - 1] in params;
    }
  }

  lemma ParamsFree(vars: map<string, string>, order: seq<string>, head: string)
    requires Admissible(vars) && Enumerates(order, vars)
    ensures Free(ParamLines(Params(vars, order, head)), '$')
  {
    var params := Collect(order, PickParam(vars, head));
    SortKeeps(params, NameBefore);
    forall p | p in Params(vars, order, head) ensures Free(p.name, '$') && Free(p.value, '$') {
      assert p in multiset(Params(vars, order, head));
      assert p in params;
      ParamPicked(vars, order, head, p);
      assert Name(head + p.name);
      TailFree(head, p.name);
    }
    hide Sort, Collect, PickParam, Free, Params;
    ParamLinesFree(Params(vars, order, head));
  }

  lemma TailFree(a: string, b: string)
    requires Free(a + b, '$')
    ensures Free(b, '$')
  {
    forall i | 0 <= i < |b| ensures b[i] != '$' {
      assert (a + b)[|a| + i] == b[i];
    }
  }

  lemma FreeConcat(a: string, b: string)
    requires Free(a, '$') && Free(b, '$')
    ensures Free(a + b, '$')
  {
  }

  lemma ReasonFree(vars: map<string, string>, order: seq<string>, prefix: string, indexes: seq<nat>, n: nat)
    requires Admissible(vars) && Enumerates(order, vars) && n < |indexes|
    ensures Free(Reason(vars, order, prefix, indexes, n), '$')
  {
    var index := indexes[n];
    var key := SignatureKey(prefix, index);
    if key in vars {
      var lines := ParamLines(Params(vars, order, ArgsHead(prefix, index)));
      ParamsFree(vars, order, ArgsHead(prefix, index));
      HeadFree(n + 1, vars[key]);
      var tail := if index == indexes[|indexes| - 1] then "" else "\n";
      hide Params, ParamLines, ReasonHead, SignatureKey, ArgsHead;
      FreeConcat(ReasonHead(n + 1, vars[key]), lines);
      FreeConcat(ReasonHead(n + 1, vars[key]) + lines, tail);
    }
  }

  lemma HeadFree(number: nat, signature: string)
    requires Free(signature, '$')
    ensures Free(ReasonHead(number, signature), '$')
  {
    DigitsFree(Show(number));
    hide Show;
  }

  lemma {:induction false} ReasonsFree(vars: map<string, string>, order: seq<string>, prefix: string,
      indexes: seq<nat>, n: nat)
    requires Admissible(vars) && Enumerates(order, vars) && n <= |indexes|
    ensures Free(Reasons(vars, order, prefix, indexes, n), '$')
  {
    if n > 0 {
      ReasonsFree(vars, order, prefix, indexes, n - 1);
      ReasonFree(vars, order, prefix, indexes, n - 1);
      hide Reason, Free;
      FreeConcat(Reasons(vars, order, prefix, indexes, n - 1), Reason(vars, order, prefix, indexes, n - 1));
    }
  }

  lemma SectionFree(vars: map<string, string>, order: seq<string>, prefix: string)
    requires Admissible(vars) && Enumerates(order, vars) && prefix in {"functions", "events"}
    ensures Free(SectionText(vars, order, prefix), '$')
  {
    var indexes := Indexes(order, prefix);
    ReasonsFree(vars, order, prefix, indexes, |indexes|);
    HeadingFree(prefix);
    hide Reasons, Indexes, Heading;
  }

  lemma HeadingFree(prefix: string)
    requires prefix in {"functions", "events"}
    ensures Free(Heading(prefix), '$')
  {
  }

  /** A section goes in only where the template itself asks for it, whatever its variables bring in. */
  lemma NotAskedFor(t: string, vars: map<string, string>, order: seq<string>)
    requires forall k :: k in order ==> k in vars
    requires !Contains(t, "${functions}") && !Contains(t, "${events}")
    ensures Format(t, vars, order) == SubstituteAll(t, vars, order)
  {
    assert Placeholder("functions") == "${functions}" && Placeholder("events") == "${events}";
    hide SubstituteAll, Section, Contains, Replace;
  }

  // ---------------------------------------------------------------------------------------
  // The formatter against the reference.

  /** Putting in a section is filling one more placeholder, also when the template has none. */
  lemma PutFills(t: string, vars: map<string, string>, order: seq<string>, prefix: string, done: map<string, string>)
    requires SafeTemplate(t) && Admissible(done) && prefix in {"functions", "events"} && prefix !in done
    requires Free(SectionText(vars, order, prefix), '$')
    ensures PutSection(t, Render(Fill(Parse(t), done)), vars, order, prefix)
         == Render(Fill(Parse(t), done[prefix := SectionText(vars, order, prefix)]))
  {
    hide Render, Fill, Parse, Section, Safe, Contains, Replace, SectionText;
    var text := SectionText(vars, order, prefix);
    assert Name(prefix);
    if Contains(t, Placeholder(prefix)) {
      FillsOneMore(Parse(t), done, prefix, text);
    } else {
      if Hole(prefix) in Parse(t) {
        HoleOccurs(Parse(t), prefix);
        ParseRenders(t);
      }
      FillIgnores(Parse(t), done, prefix, text);
    }
  }

  /** The variables together with the two sections. */
  function Complete(vars: map<string, string>, order: seq<string>): map<string, string> {
    vars["functions" := SectionText(vars, order, "functions")]["events" := SectionText(vars, order, "events")]
  }

  lemma MoreAdmissible(vars: map<string, string>, text: string)
    requires Admissible(vars) && Free(text, '$')
    ensures Admissible(vars["functions" := text])
  {
    assert Name("functions");
  }

  lemma FormatFills(t: string, vars: map<string, string>, order: seq<string>)
    requires SafeTemplate(t) && Admissible(vars) && "functions" !in vars && "events" !in vars
    requires Enumerates(order, vars)
    ensures Format(t, vars, order) == OnePass(t, Complete(vars, order))
  {
    SectionFree(vars, order, "functions");
    SectionFree(vars, order, "events");
    LoopFills(t, vars, order);
    assert Restrict(vars, order) == vars;
    var more := vars["functions" := SectionText(vars, order, "functions")];
    assert "events" !in more;
    MoreAdmissible(vars, SectionText(vars, order, "functions"));
    hide SectionText, Free, SubstituteAll, Render, Fill, Parse, Safe, PutSection, Restrict, OnePass, Admissible,
      Enumerates;
    PutFills(t, vars, order, "functions", vars);
    PutFills(t, vars, order, "events", more);
    OnePassFills(t, Complete(vars, order));
  }

  /** For a safe template and admissible variables that do not name a section, formatting is one
      simultaneous substitution of the variables and the two sections, whatever the order in which
      the hash map yields its entries. */
  lemma FormatIsOnePass(t: string, vars: map<string, string>, order: seq<string>, other: seq<string>)
    requires SafeTemplate(t) && Admissible(vars) && "functions" !in vars && "events" !in vars
    requires Enumerates(order, vars) && Enumerates(other, vars)
    ensures Format(t, vars, order) == OnePass(t, Complete(vars, other))
  {
    FormatFills(t, vars, order);
    SectionOrderFree(vars, order, other, "functions");
    SectionOrderFree(vars, order, other, "events");
    hide OnePass, Format, Section, SafeTemplate, Admissible, Enumerates;
  }
}
