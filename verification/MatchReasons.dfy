/** The "Match reasons" sections of a message: the matched events or functions of the flattened
    variables, numbered, each with its signature and its arguments. */
module MatchReasons {
  import opened Basics
  import opened Decimal
  import opened Sorting
  import opened Template

  predicate EndsWith(s: string, pattern: string) {
    |pattern| <= |s| && s[|s| - |pattern|..] == pattern
  }

  /** One argument of a matched event or function. */
  datatype Param = Param(name: string, value: string)

  predicate NameBefore(p: Param, q: Param) {
    Before(p.name, q.name)
  }

  const SIGNATURE := ".signature"

  function SignatureKey(prefix: string, index: nat): string {
    prefix + "." + Show(index) + SIGNATURE
  }

  function ArgsHead(prefix: string, index: nat): string {
    prefix + "." + Show(index) + ".args."
  }

  /** The index in a key "<prefix>.<index>.signature". */
  function IndexOf(key: string, prefix: string): Option<nat> {
    if StartsWith(key, prefix + ".") && EndsWith(key, SIGNATURE) then
      var part := key[|prefix| + 1..];
      if EndsWith(part, SIGNATURE) then ParseU64(part[..|part| - |SIGNATURE|]) else None
    else None
  }

  function PickIndex(prefix: string): string -> seq<nat> {
    key => match IndexOf(key, prefix)
           case Some(n) => [n]
           case None => []
  }

  function Indexes(order: seq<string>, prefix: string): seq<nat> {
    Sort(Collect(order, PickIndex(prefix)), NatBefore)
  }

  function PickParam(vars: map<string, string>, head: string): string -> seq<Param> {
    key => if key in vars && StartsWith(key, head) then [Param(key[|head|..], vars[key])] else []
  }

  function Params(vars: map<string, string>, order: seq<string>, head: string): seq<Param> {
    Sort(Collect(order, PickParam(vars, head)), NameBefore)
  }

  // ---------------------------------------------------------------------------------------
  // The text of a section.

  function Upper(c: char): char {
    if 'a' <= c <= 'z' then c - 'a' + 'A' else c
  }

  function Heading(prefix: string): string
    requires prefix != ""
  {
    "\n\n*Matched " + [Upper(prefix[0])] + prefix[1..] + ":*\n"
  }

  function ParamLine(p: Param): string {
    "\n" + p.name + ": `" + p.value + "`"
  }

  function ParamLines(params: seq<Param>): string {
    if params == [] then ""
    else ParamLines(params[..|params| - 1]) + ParamLine(params[|params| - 1])
  }

  /** What precedes the arguments of the reason with the given one-based number. */
  function ReasonHead(number: nat, signature: string): string {
    "\n*Reason " + Show(number) + "*\n" + "\n*Signature:* `" + signature + "`\n" + "\n*Params:*\n"
  }

  function ReasonText(number: nat, signature: string, params: seq<Param>, last: bool): string {
    ReasonHead(number, signature) + ParamLines(params) + if last then "" else "\n"
  }

  /** The reason for the n-th of the sorted indexes. */
  function Reason(vars: map<string, string>, order: seq<string>, prefix: string, indexes: seq<nat>, n: nat): string
    requires n < |indexes|
  {
    var key := SignatureKey(prefix, indexes[n]);
    if key in vars then
      ReasonText(n + 1, vars[key], Params(vars, order, ArgsHead(prefix, indexes[n])),
                 indexes[n] == indexes[|indexes| - 1])
    else ""
  }

  function Reasons(vars: map<string, string>, order: seq<string>, prefix: string, indexes: seq<nat>, n: nat): string
    requires n <= |indexes|
  {
    if n == 0 then "" else Reasons(vars, order, prefix, indexes, n - 1) + Reason(vars, order, prefix, indexes, n - 1)
  }

  function Section(vars: map<string, string>, order: seq<string>, prefix: string): Option<string>
    requires prefix != ""
  {
    var indexes := Indexes(order, prefix);
    if indexes == [] then None
    else Some(Heading(prefix) + Reasons(vars, order, prefix, indexes, |indexes|))
  }

  // ---------------------------------------------------------------------------------------
  // The loops that build it.

  method CollectIndexes(order: seq<string>, prefix: string) returns (indexes: seq<nat>)
    ensures indexes == Collect(order, PickIndex(prefix))
  {
    hide *;
    CollectNothing(PickIndex(prefix));
    indexes := [];
    for i := 0 to |order|
      invariant indexes == Collect(order[..i], PickIndex(prefix))
    {
      var key := order[i];
      assert order[..i + 1] == order[..i] + [key];
      CollectSnoc(order[..i], key, PickIndex(prefix));
      PickCases(key, prefix);
      if StartsWith(key, prefix + ".") && EndsWith(key, SIGNATURE) {
        PartFits(key, prefix);
        var part := key[|prefix| + 1..];
        if EndsWith(part, SIGNATURE) {
          SuffixFits(part, SIGNATURE);
          match ParseU64(part[..|part| - |SIGNATURE|])
          case Some(index) => indexes := indexes + [index];
          case None => assert indexes + [] == indexes;
        } else {
          assert indexes + [] == indexes;
        }
      } else {
        assert indexes + [] == indexes;
      }
    }
    assert order[..|order|] == order;
  }

  lemma CollectNothing<T>(pick: string -> seq<T>)
    ensures Collect([], pick) == []
  {
  }

  /** What a key contributes. */
  lemma PickCases(key: string, prefix: string)
    ensures var part := if StartsWith(key, prefix + ".") then key[|prefix| + 1..] else "";
            PickIndex(prefix)(key) ==
            if StartsWith(key, prefix + ".") && EndsWith(key, SIGNATURE) && EndsWith(part, SIGNATURE) then
              match ParseU64(part[..|part| - |SIGNATURE|]) case Some(n) => [n] case None => []
            else []
  {
    hide ParseU64;
  }

  lemma PartFits(key: string, prefix: string)
    requires StartsWith(key, prefix + ".")
    ensures |prefix| + 1 <= |key|
  {
  }

  lemma SuffixFits(s: string, pattern: string)
    requires EndsWith(s, pattern)
    ensures |pattern| <= |s|
  {
  }

  method CollectParams(vars: map<string, string>, order: seq<string>, head: string) returns (params: seq<Param>)
    requires Enumerates(order, vars)
    ensures params == Collect(order, PickParam(vars, head))
  {
    params := [];
    for i := 0 to |order|
      invariant params == Collect(order[..i], PickParam(vars, head))
    {
      var key := order[i];
      assert order[..i + 1] == order[..i] + [key];
      CollectSnoc(order[..i], key, PickParam(vars, head));
      hide Collect;
      if StartsWith(key, head) {
        params := params + [Param(key[|head|..], vars[key])];
      }
    }
    assert order[..|order|] == order;
  }

  method PushParams(before: string, params: seq<Param>) returns (text: string)
    ensures text == before + ParamLines(params)
  {
    text := before;
    for i := 0 to |params|
      invariant text == before + ParamLines(params[..i])
    {
      assert params[..i + 1][..i] == params[..i];
      text := text + ("\n" + params[i].name + ": `" + params[i].value + "`");
    }
    assert params[..|params|] == params;
  }

  method PushReason(vars: map<string, string>, order: seq<string>, prefix: string, indexes: seq<nat>, n: nat,
                    before: string) returns (text: string)
    requires Enumerates(order, vars) && n < |indexes|
    ensures text == before + Reason(vars, order, prefix, indexes, n)
  {
    hide Collect, Sort, Show, StartsWith, PickParam, ParamLines, SignatureKey, ArgsHead, Enumerates, ReasonHead;
    text := before;
    var index, lastIndex := indexes[n], indexes[|indexes| - 1];
    var key := SignatureKey(prefix, index);
    if key in vars {
      text := text + ReasonHead(n + 1, vars[key]);
      var params := CollectParams(vars, order, ArgsHead(prefix, index));
      params := Sort(params, NameBefore);
      text := PushParams(text, params);
      if index != lastIndex {
        text := text + "\n";
      }
      ReasonJoins(before, n + 1, vars[key], params, index == lastIndex);
    }
  }

  lemma ReasonJoins(before: string, number: nat, signature: string, params: seq<Param>, last: bool)
    ensures before + ReasonText(number, signature, params, last)
         == before + ReasonHead(number, signature) + ParamLines(params) + if last then "" else "\n"
  {
    hide ReasonHead, ParamLines;
  }

  method BuildMatchReasons(vars: map<string, string>, order: seq<string>, prefix: string)
    returns (reasons: Option<string>)
    requires Enumerates(order, vars) && prefix != ""
    ensures reasons == Section(vars, order, prefix)
  {
    hide Collect, Sort, Reason, Heading, Enumerates;
    var indexes := CollectIndexes(order, prefix);
    indexes := Sort(indexes, NatBefore);
    if indexes == [] {
      return None;
    }
    var text := Heading(prefix);
    for n := 0 to |indexes|
      invariant text == Heading(prefix) + Reasons(vars, order, prefix, indexes, n)
    {
      text := PushReason(vars, order, prefix, indexes, n, text);
      Associative(Heading(prefix), Reasons(vars, order, prefix, indexes, n),
                  Reason(vars, order, prefix, indexes, n));
    }
    return Some(text);
  }

  // ---------------------------------------------------------------------------------------
  // The order in which the hash map yields its entries does not matter.

  lemma SameKeys(vars: map<string, string>, o1: seq<string>, o2: seq<string>)
    requires Enumerates(o1, vars) && Enumerates(o2, vars)
    ensures multiset(o1) == multiset(o2)
  {
    SameMembers(o1, o2);
  }

  lemma NatOrder()
    ensures StrictWeak(NatBefore)
  {
  }

  lemma NameOrder()
    ensures StrictWeak(NameBefore)
  {
    forall p, q | NameBefore(p, q) ensures !NameBefore(q, p) {
      BeforeAsymmetric(p.name, q.name);
    }
    forall p, q, r | NameBefore(p, r) ensures NameBefore(p, q) || NameBefore(q, r) {
      BeforeTotal(p.name, q.name);
      BeforeTotal(q.name, r.name);
      if Before(q.name, p.name) {
        BeforeTransitive(q.name, p.name, r.name);
      }
    }
    hide Before;
  }

  /** Different keys give different parameter names. */
  lemma PickParamApart(vars: map<string, string>, order: seq<string>, head: string)
    ensures PicksApart(PickParam(vars, head), order)
  {
    var pick := PickParam(vars, head);
    forall j, k, x | x in pick(j) && x in pick(k) ensures j == k {
      assert x == Param(j[|head|..], vars[j]) == Param(k[|head|..], vars[k]);
      assert j == head + x.name == k;
    }
  }

  lemma ParamPicked(vars: map<string, string>, order: seq<string>, head: string, p: Param)
    requires Enumerates(order, vars)
    ensures p in Collect(order, PickParam(vars, head)) <==> head + p.name in vars && vars[head + p.name] == p.value
  {
    var pick, key := PickParam(vars, head), head + p.name;
    CollectMembers(order, pick, p);
    hide Collect;
    if k :| k in order && p in pick(k) {
      assert k == head + k[|head|..] == key;
    }
    if key in vars && vars[key] == p.value {
      assert key[|head|..] == p.name && key[..|head|] == head;
      assert p in pick(key);
    }
  }

  lemma ParamsSeparate(vars: map<string, string>, order: seq<string>, head: string)
    requires Enumerates(order, vars)
    ensures Separates(Collect(order, PickParam(vars, head)), NameBefore)
  {
    var params := Collect(order, PickParam(vars, head));
    forall p, q | p in params && q in params && !NameBefore(p, q) && !NameBefore(q, p) ensures p == q {
      ParamPicked(vars, order, head, p);
      ParamPicked(vars, order, head, q);
      BeforeTotal(p.name, q.name);
    }
  }

  lemma ParamsOrderFree(vars: map<string, string>, o1: seq<string>, o2: seq<string>, head: string)
    requires Enumerates(o1, vars) && Enumerates(o2, vars)
    ensures Params(vars, o1, head) == Params(vars, o2, head)
  {
    SameKeys(vars, o1, o2);
    CollectPermutes(o1, o2, PickParam(vars, head));
    ParamsSeparate(vars, o1, head);
    NameOrder();
    hide PickParam, Collect, Separates, StrictWeak, NameBefore;
    SortForgets(Collect(o1, PickParam(vars, head)), Collect(o2, PickParam(vars, head)), NameBefore);
  }

  /** The listing of a set of arguments in ascending order of their distinct names. */
  ghost predicate NamesAscend(params: seq<Param>) {
    forall i, j :: 0 <= i < j < |params| ==> NameBefore(params[i], params[j])
  }

  /** Whatever the order of the map, the arguments found under a head are listed in ascending order. */
  lemma ParamsAre(vars: map<string, string>, order: seq<string>, head: string, params: seq<Param>)
    requires Enumerates(order, vars) && NamesAscend(params)
    requires forall p :: p in params <==> head + p.name in vars && vars[head + p.name] == p.value
    ensures Params(vars, order, head) == params
  {
    var found := Collect(order, PickParam(vars, head));
    PickParamApart(vars, order, head);
    CollectDistinct(order, PickParam(vars, head));
    forall p ensures p in found <==> p in params {
      ParamPicked(vars, order, head, p);
    }
    NameOrder();
    AscendingInOrder(params);
    SameMembers(found, params);
    SortKeeps(found, NameBefore);
    SortOrders(found, NameBefore);
    ParamsSeparate(vars, order, head);
    hide *;
    OrderedFind(found, params);
  }

  lemma OrderedFind(found: seq<Param>, params: seq<Param>)
    requires StrictWeak(NameBefore) && multiset(found) == multiset(params)
    requires InOrder(params, NameBefore) && Separates(found, NameBefore)
    ensures Sort(found, NameBefore) == params
  {
    SortKeeps(found, NameBefore);
    SortOrders(found, NameBefore);
    forall p | p in Sort(found, NameBefore) ensures p in found {
      assert p in multiset(Sort(found, NameBefore));
    }
    OrderedUnique(Sort(found, NameBefore), params, NameBefore);
  }

  lemma AscendingInOrder(params: seq<Param>)
    requires NamesAscend(params)
    ensures InOrder(params, NameBefore) && Distinct(params)
  {
    NameOrder();
  }

  lemma IndexesOrderFree(vars: map<string, string>, o1: seq<string>, o2: seq<string>, prefix: string)
    requires Enumerates(o1, vars) && Enumerates(o2, vars)
    ensures Indexes(o1, prefix) == Indexes(o2, prefix)
  {
    SameKeys(vars, o1, o2);
    CollectPermutes(o1, o2, PickIndex(prefix));
    NatOrder();
    SortForgets(Collect(o1, PickIndex(prefix)), Collect(o2, PickIndex(prefix)), NatBefore);
  }

  lemma {:induction false} ReasonsOrderFree(vars: map<string, string>, o1: seq<string>, o2: seq<string>,
                                            prefix: string, indexes: seq<nat>, n: nat)
    requires Enumerates(o1, vars) && Enumerates(o2, vars) && n <= |indexes|
    ensures Reasons(vars, o1, prefix, indexes, n) == Reasons(vars, o2, prefix, indexes, n)
  {
    if n > 0 {
      ReasonsOrderFree(vars, o1, o2, prefix, indexes, n - 1);
      assert Reason(vars, o1, prefix, indexes, n - 1) == Reason(vars, o2, prefix, indexes, n - 1) by {
        ParamsOrderFree(vars, o1, o2, ArgsHead(prefix, indexes[n - 1]));
        hide Params, SignatureKey, ArgsHead, ReasonText, Enumerates;
      }
      hide Reason, Enumerates;
    }
  }

  /** For every map of variables, also one no flattening produces, a section does not depend on the
      order in which the map yields its entries. */
  lemma SectionOrderFree(vars: map<string, string>, o1: seq<string>, o2: seq<string>, prefix: string)
    requires Enumerates(o1, vars) && Enumerates(o2, vars) && prefix != ""
    ensures Section(vars, o1, prefix) == Section(vars, o2, prefix)
  {
    IndexesOrderFree(vars, o1, o2, prefix);
    var indexes := Indexes(o1, prefix);
    ReasonsOrderFree(vars, o1, o2, prefix, indexes, |indexes|);
    hide Indexes, Reasons, Heading, Enumerates;
  }
}
