/** What a message says about a match: one reason per matched event or function, numbered from one in
    the order of the match, each with the arguments extracted for its signature. */
module MatchReport {
  import opened Basics
  import opened Decimal
  import opened Flatten
  import opened Formatter
  import opened MatchReasons
  import opened MatchVariables
  import opened Sorting
  import opened Template

  // ---------------------------------------------------------------------------------------
  // The reference: a report written from the items, letter by letter.

  function ArgumentLines(args: seq<Param>): string {
    if args == [] then "" else "\n" + args[0].name + ": `" + args[0].value + "`" + ArgumentLines(args[1..])
  }

  /** The reasons from the given number on, counting from one, with a blank line between two of them. */
  function ReportFrom(items: seq<Item>, number: nat): string
    requires 1 <= number
    decreases |items| + 1 - number
  {
    if |items| < number then ""
    else
      "\n*Reason " + Show(number) + "*\n\n*Signature:* `" + items[number - 1].signature + "`\n\n*Params:*\n"
      + ArgumentLines(items[number - 1].args) + (if number == |items| then "" else "\n") + ReportFrom(items, number + 1)
  }

  function Report(title: string, items: seq<Item>): Option<string> {
    if items == [] then None else Some("\n\n*Matched " + title + ":*\n" + ReportFrom(items, 1))
  }

  // ---------------------------------------------------------------------------------------
  // The formatter's way of writing it.

  function ReasonLines(items: seq<Item>, n: nat): string
    requires n <= |items|
  {
    if n == 0 then ""
    else ReasonLines(items, n - 1) + ReasonText(n, items[n - 1].signature, items[n - 1].args, n == |items|)
  }

  lemma {:induction false} ParamLinesCons(params: seq<Param>)
    requires params != []
    ensures ParamLines(params) == ParamLine(params[0]) + ParamLines(params[1..])
  {
    hide ParamLine;
    if |params| == 1 {
      assert params[..0] == [] && params[1..] == [];
    } else {
      var init := params[..|params| - 1];
      ParamLinesCons(init);
      assert init[1..] == params[1..][..|params| - 2];
    }
  }

  lemma {:induction false} ArgumentLinesAre(args: seq<Param>)
    ensures ParamLines(args) == ArgumentLines(args)
  {
    if args != [] {
      ParamLinesCons(args);
      ArgumentLinesAre(args[1..]);
      hide ParamLines;
    }
  }

  lemma ReasonTextIs(number: nat, signature: string, args: seq<Param>, last: bool)
    ensures ReasonText(number, signature, args, last)
         == "\n*Reason " + Show(number) + "*\n\n*Signature:* `" + signature + "`\n\n*Params:*\n"
            + ArgumentLines(args) + if last then "" else "\n"
  {
    ArgumentLinesAre(args);
    hide Show, ParamLines, ArgumentLines;
    HeadIsLiteral(number, signature);
    hide ReasonHead;
  }

  lemma HeadIsLiteral(number: nat, signature: string)
    ensures ReasonHead(number, signature)
         == "\n*Reason " + Show(number) + "*\n\n*Signature:* `" + signature + "`\n\n*Params:*\n"
  {
    hide Show;
  }

  /** Written from the front or from the back, the report is the same. */
  lemma {:induction false} ReasonLinesAre(items: seq<Item>, n: nat)
    requires n <= |items|
    ensures ReasonLines(items, n) + ReportFrom(items, n + 1) == ReportFrom(items, 1)
  {
    if 0 < n {
      ReasonLinesAre(items, n - 1);
      OneReason(items, n);
      hide ReportFrom;
      Associative(ReasonLines(items, n - 1),
        ReasonText(n, items[n - 1].signature, items[n - 1].args, n == |items|), ReportFrom(items, n + 1));
      hide ReasonText;
    } else {
      assert "" + ReportFrom(items, 1) == ReportFrom(items, 1);
    }
  }

  lemma OneReason(items: seq<Item>, n: nat)
    requires 1 <= n <= |items|
    ensures ReportFrom(items, n)
         == ReasonText(n, items[n - 1].signature, items[n - 1].args, n == |items|) + ReportFrom(items, n + 1)
  {
    ReasonTextIs(n, items[n - 1].signature, items[n - 1].args, n == |items|);
    hide ReasonText, Show, ArgumentLines;
  }

  lemma AllReasons(items: seq<Item>)
    ensures ReasonLines(items, |items|) == ReportFrom(items, 1)
  {
    ReasonLinesAre(items, |items|);
    assert ReportFrom(items, |items| + 1) == "";
  }

  lemma HeadingsAre()
    ensures Heading("events") == "\n\n*Matched " + "Events" + ":*\n"
    ensures Heading("functions") == "\n\n*Matched " + "Functions" + ":*\n"
  {
    assert "events"[1..] == "vents" && "functions"[1..] == "unctions";
    assert Upper('e') == 'E' && Upper('f') == 'F';
    assert ['E'] + "vents" == "Events" && ['F'] + "unctions" == "Functions";
  }

  ghost predicate Holds(vars: map<string, string>, path: string, text: string) {
    path in vars && vars[path] == text
  }

  ghost predicate SomeItemLeaf(items: seq<Item>, prefix: string, leaf: Leaf) {
    exists i :: 0 <= i < |items| && ItemLeaf(items, prefix, i, leaf)
  }

  /** Below a prefix the variables hold exactly the leaves of the items. */
  ghost predicate Describes(vars: map<string, string>, prefix: string, items: seq<Item>) {
    forall path, text :: StartsWith(path, prefix + ".") ==>
      (Holds(vars, path, text) <==> SomeItemLeaf(items, prefix, Leaf(path, text)))
  }

  lemma KeyAtStarts(prefix: string, i: nat, tail: string)
    ensures StartsWith(KeyAt(prefix, i, tail), prefix + ".")
    ensures KeyAt(prefix, i, tail)[|prefix| + 1..] == Show(i) + "." + tail
  {
    var s := KeyAt(prefix, i, tail);
    assert s == (prefix + ".") + (Show(i) + "." + tail);
    assert |prefix + "."| == |prefix| + 1;
  }

  /** The text before the first dot. */
  function Head(s: string): string {
    if s == "" || s[0] == '.' then "" else [s[0]] + Head(s[1..])
  }

  lemma {:induction false} HeadIs(a: string, s: string)
    requires Free(a, '.')
    ensures Head(a + "." + s) == a
  {
    if a != "" {
      HeadIs(a[1..], s);
      assert (a + "." + s)[1..] == a[1..] + "." + s;
    }
  }

  /** The part before the first dot and the part after it are determined. */
  lemma SplitsOnce(a: string, s: string, b: string, t: string)
    requires Free(a, '.') && Free(b, '.') && a + "." + s == b + "." + t
    ensures a == b && s == t
  {
    HeadIs(a, s);
    HeadIs(b, t);
    assert (a + "." + s)[|a| + 1..] == s && (b + "." + t)[|b| + 1..] == t;
  }

  lemma KeyAtInjective(prefix: string, i: nat, s: string, j: nat, t: string)
    requires KeyAt(prefix, i, s) == KeyAt(prefix, j, t)
    ensures i == j && s == t
  {
    KeyAtStarts(prefix, i, s);
    KeyAtStarts(prefix, j, t);
    DigitsPlain(i);
    DigitsPlain(j);
    hide Show, KeyAt, StartsWith;
    SplitsOnce(Show(i), s, Show(j), t);
    ShowInjective(i, j);
  }

  // ---------------------------------------------------------------------------------------
  // Which keys carry an index.

  lemma SignatureHasIndex(prefix: string, i: nat)
    requires i < U64_LIMIT
    ensures IndexOf(KeyAt(prefix, i, "signature"), prefix) == Some(i)
  {
    var key := KeyAt(prefix, i, "signature");
    KeyAtStarts(prefix, i, "signature");
    ShowParses(i);
    hide Show, ParseU64, KeyAt, StartsWith;
    assert "." + "signature" == SIGNATURE;
    Associative(Show(i), ".", "signature");
    IndexBetween(key, prefix, Show(i));
  }

  lemma IndexBetween(key: string, prefix: string, digits: string)
    requires StartsWith(key, prefix + ".") && key[|prefix| + 1..] == digits + SIGNATURE
    ensures IndexOf(key, prefix) == ParseU64(digits)
  {
    hide ParseU64;
    var part := key[|prefix| + 1..];
    assert part[|digits|..] == SIGNATURE && part[..|digits|] == digits;
    assert key[|key| - |SIGNATURE|..] == part[|part| - |SIGNATURE|..];
  }

  /** However an argument is called, its key carries no index. */
  lemma ArgHasNoIndex(prefix: string, i: nat, name: string)
    ensures IndexOf(KeyAt(prefix, i, "args." + name), prefix) == None
  {
    var key := KeyAt(prefix, i, "args." + name);
    KeyAtStarts(prefix, i, "args." + name);
    hide KeyAt, ParseU64, StartsWith;
    var part := key[|prefix| + 1..];
    if EndsWith(part, SIGNATURE) {
      DigitsPlain(i);
      DotBeforeSuffix(Show(i), name, part);
      hide Show;
      DotIsNoNumber(part[..|part| - |SIGNATURE|], |Show(i)|);
    }
  }

  lemma DotBeforeSuffix(digits: string, name: string, part: string)
    requires part == digits + "." + ("args." + name) && EndsWith(part, SIGNATURE)
    ensures var m := |part| - |SIGNATURE|;
            |digits| < m && part[..m][|digits|] == '.'
  {
    var m := |part| - |SIGNATURE|;
    assert part == digits + ".args." + name;
    assert part[|digits| + 5] == '.' && part[|digits|] == '.';
    forall k | m < k < |part| ensures part[k] != '.' {
      assert part[k] == part[m..][k - m] == SIGNATURE[k - m];
    }
  }

  lemma DotIsNoNumber(s: string, k: nat)
    requires 0 < k < |s| && s[k] == '.'
    ensures ParseU64(s) == None
  {
    var digits := if s[0] == '+' then s[1..] else s;
    assert '.' in digits by {
      assert s[0] == '+' ==> digits[k - 1] == '.';
    }
    assert !IsDigit('.');
  }

  lemma DescribedKey(vars: map<string, string>, prefix: string, items: seq<Item>, key: string)
      returns (i: nat, tail: string)
    requires Describes(vars, prefix, items) && key in vars && StartsWith(key, prefix + ".")
    ensures i < |items| && key == KeyAt(prefix, i, tail) && ItemLeaf(items, prefix, i, Leaf(key, vars[key]))
    ensures tail == "signature" || exists p :: p in items[i].args && tail == "args." + p.name
  {
    hide KeyAt, StartsWith;
    assert Holds(vars, key, vars[key]);
    i :| 0 <= i < |items| && ItemLeaf(items, prefix, i, Leaf(key, vars[key]));
    if key == KeyAt(prefix, i, "signature") {
      tail := "signature";
    } else {
      var p :| p in items[i].args && Leaf(key, vars[key]) == Leaf(KeyAt(prefix, i, "args." + p.name), p.value);
      tail := "args." + p.name;
    }
  }

  /** The keys with an index are the signatures of the items. */
  lemma IndexMeans(vars: map<string, string>, prefix: string, items: seq<Item>, key: string, n: nat)
    requires Describes(vars, prefix, items) && |items| <= U64_LIMIT && key in vars
    ensures IndexOf(key, prefix) == Some(n) <==> n < |items| && key == KeyAt(prefix, n, "signature")
  {
    if n < |items| {
      SignatureHasIndex(prefix, n);
    }
    if StartsWith(key, prefix + ".") {
      var i, tail := DescribedKey(vars, prefix, items, key);
      hide Describes, KeyAt, ItemLeaf;
      if tail == "signature" {
        SignatureHasIndex(prefix, i);
      } else {
        var p :| p in items[i].args && tail == "args." + p.name;
        ArgHasNoIndex(prefix, i, p.name);
      }
      hide IndexOf;
    }
  }

  lemma SignatureThere(vars: map<string, string>, prefix: string, items: seq<Item>, i: nat)
    requires Describes(vars, prefix, items) && i < |items|
    ensures SignatureKey(prefix, i) == KeyAt(prefix, i, "signature")
    ensures SignatureKey(prefix, i) in vars && vars[SignatureKey(prefix, i)] == items[i].signature
  {
    KeysAt(prefix, i, "");
    KeyAtStarts(prefix, i, "signature");
    hide KeyAt, SignatureKey, StartsWith;
    assert ItemLeaf(items, prefix, i, Leaf(KeyAt(prefix, i, "signature"), items[i].signature));
    assert Holds(vars, KeyAt(prefix, i, "signature"), items[i].signature);
  }

  lemma IndexPicked(vars: map<string, string>, order: seq<string>, prefix: string, items: seq<Item>, n: nat)
    requires Describes(vars, prefix, items) && |items| <= U64_LIMIT && Enumerates(order, vars)
    ensures n in Collect(order, PickIndex(prefix)) <==> n < |items|
  {
    var pick := PickIndex(prefix);
    CollectMembers(order, pick, n);
    if key :| key in order && n in pick(key) {
      IndexMeans(vars, prefix, items, key, n);
    }
    if n < |items| {
      var key := KeyAt(prefix, n, "signature");
      SignatureThere(vars, prefix, items, n);
      IndexMeans(vars, prefix, items, key, n);
      assert key in order && n in pick(key);
    }
    hide Describes, Collect, KeyAt;
  }

  lemma IndexesApart(vars: map<string, string>, order: seq<string>, prefix: string, items: seq<Item>)
    requires Describes(vars, prefix, items) && |items| <= U64_LIMIT && Enumerates(order, vars)
    ensures PicksApart(PickIndex(prefix), order)
  {
    var pick := PickIndex(prefix);
    forall j, k, n: nat | j in order && k in order && n in pick(j) && n in pick(k) ensures j == k {
      IndexMeans(vars, prefix, items, j, n);
      IndexMeans(vars, prefix, items, k, n);
    }
    hide Describes, Collect, KeyAt, IndexOf;
  }

  /** The indexes of the section are 0, 1, ..., one for each item, however many digits they take. */
  lemma IndexesAre(vars: map<string, string>, order: seq<string>, prefix: string, items: seq<Item>)
    requires Describes(vars, prefix, items) && |items| <= U64_LIMIT && Enumerates(order, vars)
    ensures Indexes(order, prefix) == Range(0, |items|)
  {
    var found, all := Collect(order, PickIndex(prefix)), Range(0, |items|);
    IndexesApart(vars, order, prefix, items);
    CollectDistinct(order, PickIndex(prefix));
    ElemsRange(0, |items|);
    forall n: nat ensures n in found <==> n in all {
      IndexPicked(vars, order, prefix, items, n);
    }
    assert Distinct(all) && InOrder(all, NatBefore);
    hide Describes, Collect, PickIndex, Enumerates, Range;
    SameMembers(found, all);
    NatOrder();
    SortKeeps(found, NatBefore);
    SortOrders(found, NatBefore);
    OrderedUnique(Sort(found, NatBefore), all, NatBefore);
  }

  // ---------------------------------------------------------------------------------------
  // Each reason lists exactly the arguments of its item.

  lemma ArgsFound(vars: map<string, string>, prefix: string, items: seq<Item>, i: nat, p: Param)
    requires Describes(vars, prefix, items) && i < |items|
    ensures p in items[i].args <==>
            ArgsHead(prefix, i) + p.name in vars && vars[ArgsHead(prefix, i) + p.name] == p.value
  {
    var key := KeyAt(prefix, i, "args." + p.name);
    KeysAt(prefix, i, p.name);
    KeyAtStarts(prefix, i, "args." + p.name);
    hide KeyAt, ArgsHead, StartsWith;
    if p in items[i].args {
      assert ItemLeaf(items, prefix, i, Leaf(key, p.value));
      assert Holds(vars, key, p.value);
    }
    if key in vars && vars[key] == p.value {
      OwnArgument(vars, prefix, items, i, p);
    }
  }

  lemma OwnArgument(vars: map<string, string>, prefix: string, items: seq<Item>, i: nat, p: Param)
    requires Describes(vars, prefix, items) && i < |items|
    requires Holds(vars, KeyAt(prefix, i, "args." + p.name), p.value)
    ensures p in items[i].args
  {
    var key := KeyAt(prefix, i, "args." + p.name);
    KeyAtStarts(prefix, i, "args." + p.name);
    hide KeyAt, StartsWith;
    var j :| 0 <= j < |items| && ItemLeaf(items, prefix, j, Leaf(key, p.value));
    hide Describes, Holds;
    assert ("args." + p.name)[0] == 'a' && "signature"[0] == 's';
    KeysDiffer(prefix, i, "args." + p.name, j, "signature");
    var q :| q in items[j].args && Leaf(key, p.value) == Leaf(KeyAt(prefix, j, "args." + q.name), q.value);
    KeyAtInjective(prefix, i, "args." + p.name, j, "args." + q.name);
    assert ("args." + p.name)[5..] == p.name && ("args." + q.name)[5..] == q.name;
  }

  lemma KeysDiffer(prefix: string, i: nat, s: string, j: nat, t: string)
    requires s != t
    ensures KeyAt(prefix, i, s) != KeyAt(prefix, j, t)
  {
    hide KeyAt;
    if KeyAt(prefix, i, s) == KeyAt(prefix, j, t) {
      KeyAtInjective(prefix, i, s, j, t);
    }
  }

  lemma {:induction false} ReasonsAre(vars: map<string, string>, order: seq<string>, prefix: string, items: seq<Item>,
      n: nat)
    requires Describes(vars, prefix, items) && Ordered(items) && Enumerates(order, vars) && n <= |items|
    ensures Reasons(vars, order, prefix, Range(0, |items|), n) == ReasonLines(items, n)
  {
    if n > 0 {
      ReasonsAre(vars, order, prefix, items, n - 1);
      ReasonIs(vars, order, prefix, items, n - 1);
      hide Describes, Ordered, Enumerates, Reason, ReasonText;
    }
  }

  lemma ReasonIs(vars: map<string, string>, order: seq<string>, prefix: string, items: seq<Item>, n: nat)
    requires Describes(vars, prefix, items) && Ordered(items) && Enumerates(order, vars) && n < |items|
    ensures Reason(vars, order, prefix, Range(0, |items|), n)
         == ReasonText(n + 1, items[n].signature, items[n].args, n + 1 == |items|)
  {
    SignatureThere(vars, prefix, items, n);
    forall p: Param
      ensures p in items[n].args <==>
              ArgsHead(prefix, n) + p.name in vars && vars[ArgsHead(prefix, n) + p.name] == p.value
    {
      ArgsFound(vars, prefix, items, n, p);
    }
    hide Describes, ArgsHead, SignatureKey, ReasonText;
    assert NamesAscend(items[n].args);
    hide NamesAscend, Enumerates;
    ParamsAre(vars, order, ArgsHead(prefix, n), items[n].args);
  }

  lemma SectionIsReport(vars: map<string, string>, order: seq<string>, prefix: string, title: string, items: seq<Item>)
    requires prefix != "" && Describes(vars, prefix, items) && Ordered(items) && |items| <= U64_LIMIT
    requires Enumerates(order, vars) && Heading(prefix) == "\n\n*Matched " + title + ":*\n"
    ensures Section(vars, order, prefix) == Report(title, items)
  {
    IndexesAre(vars, order, prefix, items);
    ReasonsAre(vars, order, prefix, items, |items|);
    AllReasons(items);
    hide Describes, Ordered, Enumerates, Indexes, Heading, Reasons, ReasonLines, ReportFrom;
  }

  // ---------------------------------------------------------------------------------------
  // The variables of a match describe it.

  lemma FirstChar(s: string, front: string, tail: string)
    requires StartsWith(s, front + tail) && front != ""
    ensures s != "" && s[0] == front[0]
  {
    assert s[..|front + tail|][0] == (front + tail)[0];
  }

  lemma UnderFirstChar(s: string, base: string)
    requires Under(s, base) && base != ""
    ensures s != "" && s[0] == base[0]
  {
    if StartsWith(s, base + ".") {
      FirstChar(s, base, ".");
    }
  }

  lemma NotBare(items: seq<Item>, prefix: string, text: string)
    ensures !SomeItemLeaf(items, prefix, Leaf(prefix, text))
  {
    forall i: nat, tail ensures KeyAt(prefix, i, tail) != prefix {
      assert |KeyAt(prefix, i, tail)| > |prefix|;
    }
    hide KeyAt;
  }

  lemma MatchDescribes(m: MonitorMatch, vars: map<string, string>)
    requires vars == Flattened(MatchJson(m))
    ensures Describes(vars, "events", Items(m.events, m.eventArgs))
    ensures Describes(vars, "functions", Items(m.functions, m.functionArgs))
    ensures "events" !in vars && "functions" !in vars
  {
    var events, functions := Items(m.events, m.eventArgs), Items(m.functions, m.functionArgs);
    MatchRooted(m);
    FlattenKeepsLeaves(MatchJson(m));
    hide Flattened, MatchJson, Items;
    var all := Flattened(MatchJson(m));
    if "events" in vars {
      assert all["events"] == vars["events"];
      BelowEvents(m, Leaf("events", vars["events"]));
      NotBare(events, "events", vars["events"]);
    }
    if "functions" in vars {
      assert all["functions"] == vars["functions"];
      BelowFunctions(m, Leaf("functions", vars["functions"]));
      NotBare(functions, "functions", vars["functions"]);
    }
    forall path, text | StartsWith(path, "events" + ".")
      ensures Holds(vars, path, text) <==> SomeItemLeaf(events, "events", Leaf(path, text))
    {
      FirstChar(path, "events", ".");
      BelowEvents(m, Leaf(path, text));
    }
    forall path, text | StartsWith(path, "functions" + ".")
      ensures Holds(vars, path, text) <==> SomeItemLeaf(functions, "functions", Leaf(path, text))
    {
      FirstChar(path, "functions", ".");
      BelowFunctions(m, Leaf(path, text));
    }
  }

  lemma BelowEvents(m: MonitorMatch, leaf: Leaf)
    requires leaf.path != "" && leaf.path[0] == 'e'
    ensures leaf in Leaves(MatchJson(m), "") <==> SomeItemLeaf(Items(m.events, m.eventArgs), "events", leaf)
  {
    hide Items, MatchJson, Leaves, ItemLeaf, ItemsJson, TransactionJson, Under;
    MatchLeaves(m, leaf);
    ItemsLeaves(Items(m.events, m.eventArgs), "events", leaf);
    if leaf in Leaves(ItemsJson(Items(m.functions, m.functionArgs)), "functions") {
      LeavesUnder(ItemsJson(Items(m.functions, m.functionArgs)), "functions", leaf);
      UnderFirstChar(leaf.path, "functions");
    }
    if leaf in Leaves(TransactionJson(m.transaction), "transaction") {
      LeavesUnder(TransactionJson(m.transaction), "transaction", leaf);
      UnderFirstChar(leaf.path, "transaction");
    }
    assert "monitor.name"[0] == 'm';
  }

  lemma BelowFunctions(m: MonitorMatch, leaf: Leaf)
    requires leaf.path != "" && leaf.path[0] == 'f'
    ensures leaf in Leaves(MatchJson(m), "") <==> SomeItemLeaf(Items(m.functions, m.functionArgs), "functions", leaf)
  {
    hide Items, MatchJson, Leaves, ItemLeaf, ItemsJson, TransactionJson, Under;
    MatchLeaves(m, leaf);
    ItemsLeaves(Items(m.functions, m.functionArgs), "functions", leaf);
    if leaf in Leaves(ItemsJson(Items(m.events, m.eventArgs)), "events") {
      LeavesUnder(ItemsJson(Items(m.events, m.eventArgs)), "events", leaf);
      UnderFirstChar(leaf.path, "events");
    }
    if leaf in Leaves(TransactionJson(m.transaction), "transaction") {
      LeavesUnder(TransactionJson(m.transaction), "transaction", leaf);
      UnderFirstChar(leaf.path, "transaction");
    }
    assert "monitor.name"[0] == 'm';
  }

  /** For every match, every order of the hash map and any names of the arguments: a section has one
      reason per matched event (or function), numbered from one in the order of the match, each with
      its signature and all arguments that were extracted for that signature, in ascending order of
      their names. Those are the arguments of that event alone only under `OwnArgumentsIff`. */
  lemma MatchRenders(m: MonitorMatch, vars: map<string, string>, order: seq<string>)
    requires vars == Flattened(MatchJson(m)) && Enumerates(order, vars)
    requires |m.events| <= U64_LIMIT && |m.functions| <= U64_LIMIT
    ensures Section(vars, order, "events") == Report("Events", Items(m.events, m.eventArgs))
    ensures Section(vars, order, "functions") == Report("Functions", Items(m.functions, m.functionArgs))
  {
    MatchDescribes(m, vars);
    ItemsOrdered(m.events, m.eventArgs);
    ItemsOrdered(m.functions, m.functionArgs);
    assert |Items(m.events, m.eventArgs)| == |m.events| && |Items(m.functions, m.functionArgs)| == |m.functions|;
    hide Describes, Ordered, Items, Enumerates, Section, Report;
    HeadingsAre();
    hide Heading;
    SectionIsReport(vars, order, "events", "Events", Items(m.events, m.eventArgs));
    SectionIsReport(vars, order, "functions", "Functions", Items(m.functions, m.functionArgs));
  }

  /** The reasons list the arguments of their own events if the entries of one signature do not differ. */
  lemma OwnReasons(m: MonitorMatch, all: seq<MatchParams>, vars: map<string, string>, order: seq<string>)
    requires vars == Flattened(MatchJson(m)) && Enumerates(order, vars)
    requires |m.events| <= U64_LIMIT && |m.functions| <= U64_LIMIT
    requires m.eventArgs == Some(all) && OnePerItem(m.events, all)
    requires forall i, j :: 0 <= i < j < |all| && m.events[i] == m.events[j] ==> Own(all[i]) == Own(all[j])
    ensures Section(vars, order, "events") == Report("Events", OwnItems(all))
  {
    MatchRenders(m, vars, order);
    OwnArgumentsIff(m.events, all);
    hide Section, Report, Items, OwnItems, Own, Flattened, Enumerates;
  }

  /** From a match to its message: for a safe template the message is one simultaneous substitution
      of the variables and of the two reports. */
  lemma MessageOfMatch(t: string, m: MonitorMatch, vars: map<string, string>, order: seq<string>)
    requires vars == Flattened(MatchJson(m)) && Enumerates(order, vars)
    requires |m.events| <= U64_LIMIT && |m.functions| <= U64_LIMIT
    requires SafeTemplate(t) && Admissible(vars)
    ensures Format(t, vars, order)
         == OnePass(t, vars["functions" := Report("Functions", Items(m.functions, m.functionArgs)).GetOr("")]
                           ["events" := Report("Events", Items(m.events, m.eventArgs)).GetOr("")])
  {
    MatchDescribes(m, vars);
    MatchRenders(m, vars, order);
    FormatIsOnePass(t, vars, order, order);
    hide Describes, Format, OnePass, Section, Report, Enumerates, Admissible, SafeTemplate;
  }
}
