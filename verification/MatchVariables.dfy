/** From a match to the variables of a message: the JSON data of a match, and the leaves its flattening
    gives. */
module MatchVariables {
  import opened Basics
  import opened Decimal
  import opened Flatten
  import opened MatchReasons
  import opened Sorting

  /** The arguments that were extracted for one signature. */
  datatype MatchParams = MatchParams(signature: string, args: Option<seq<Param>>)

  datatype Transaction =
    | Evm(hash: string, sender: string, value: string, receiver: Option<string>)
    | Hashed(hash: string)
    | Signed(signature: string)

  datatype MonitorMatch = MonitorMatch(
    monitor: string, transaction: Transaction,
    functions: seq<string>, functionArgs: Option<seq<MatchParams>>,
    events: seq<string>, eventArgs: Option<seq<MatchParams>>)

  /** A matched event or function with its arguments in ascending order of their names. */
  datatype Item = Item(signature: string, args: seq<Param>)

  // ---------------------------------------------------------------------------------------
  // Collecting the arguments of an item.

  /** Insertion into an ordered map: an entry of the same name is replaced. */
  function Put(args: seq<Param>, p: Param): seq<Param> {
    if args == [] || NameBefore(p, args[0]) then [p] + args
    else if args[0].name == p.name then [p] + args[1..]
    else [args[0]] + Put(args[1..], p)
  }

  function PutAll(args: seq<Param>, entries: seq<Param>): seq<Param> {
    if entries == [] then args else Put(PutAll(args, entries[..|entries| - 1]), entries[|entries| - 1])
  }

  function EntriesOf(params: MatchParams, signature: string): seq<Param> {
    if params.signature == signature then params.args.GetOr([]) else []
  }

  /** Everything that was extracted for a signature. */
  function Entries(all: seq<MatchParams>, signature: string): seq<Param> {
    if all == [] then [] else Entries(all[..|all| - 1], signature) + EntriesOf(all[|all| - 1], signature)
  }

  function ArgsOf(all: Option<seq<MatchParams>>, signature: string): seq<Param> {
    PutAll([], Entries(all.GetOr([]), signature))
  }

  lemma {:induction false} PutAllConcat(args: seq<Param>, a: seq<Param>, b: seq<Param>)
    ensures PutAll(args, a + b) == PutAll(PutAll(args, a), b)
  {
    hide Put;
    if b == [] {
      assert a + b == a;
    } else {
      PutAllConcat(args, a, b[..|b| - 1]);
      assert (a + b)[..|a + b| - 1] == a + b[..|b| - 1];
    }
  }

  method PushEntries(before: seq<Param>, entries: seq<Param>) returns (args: seq<Param>)
    ensures args == PutAll(before, entries)
  {
    args := before;
    for j := 0 to |entries|
      invariant args == PutAll(before, entries[..j])
    {
      assert entries[..j + 1][..j] == entries[..j];
      args := Put(args, entries[j]);
    }
    assert entries[..|entries|] == entries;
  }

  method CollectArgs(all: Option<seq<MatchParams>>, signature: string) returns (args: seq<Param>)
    ensures args == ArgsOf(all, signature)
  {
    args := [];
    if all.Some? {
      var maps := all.value;
      for i := 0 to |maps|
        invariant args == PutAll([], Entries(maps[..i], signature))
      {
        ghost var before := Entries(maps[..i], signature);
        assert maps[..i + 1][..i] == maps[..i];
        assert Entries(maps[..i + 1], signature) == before + EntriesOf(maps[i], signature);
        hide PutAll, Entries;
        assert before + [] == before;
        if maps[i].signature == signature && maps[i].args.Some? {
          PutAllConcat([], before, maps[i].args.value);
          args := PushEntries(args, maps[i].args.value);
        }
      }
      assert maps[..|maps|] == maps;
    }
  }

  function LastValue(entries: seq<Param>, name: string): Option<string> {
    if entries == [] then None
    else if entries[|entries| - 1].name == name then Some(entries[|entries| - 1].value)
    else LastValue(entries[..|entries| - 1], name)
  }

  lemma {:induction false} PutKeepsOrder(args: seq<Param>, p: Param)
    requires NamesAscend(args)
    ensures NamesAscend(Put(args, p))
    ensures forall q :: q in Put(args, p) <==> q == p || (q in args && q.name != p.name)
  {
    if args == [] {
    } else if NameBefore(p, args[0]) {
      AllAfter(p, args);
    } else if args[0].name == p.name {
      AllAfterFirst(args);
    } else {
      BeforeTotal(p.name, args[0].name);
      PutKeepsOrder(args[1..], p);
      AllAfterFirst(args);
      PrependAscending(args[0], Put(args[1..], p));
    }
  }

  lemma AllAfterFirst(args: seq<Param>)
    requires NamesAscend(args) && args != []
    ensures forall q :: q in args[1..] ==> NameBefore(args[0], q) && q.name != args[0].name
    ensures args == [args[0]] + args[1..]
  {
    forall q | q in args[1..] ensures NameBefore(args[0], q) && q.name != args[0].name {
      BeforeAsymmetric(args[0].name, q.name);
    }
  }

  lemma AllAfter(p: Param, args: seq<Param>)
    requires NamesAscend(args) && args != [] && NameBefore(p, args[0])
    ensures NamesAscend([p] + args) && forall q :: q in args ==> q.name != p.name
  {
    forall q | q in args ensures NameBefore(p, q) && q.name != p.name {
      if q != args[0] {
        BeforeTransitive(p.name, args[0].name, q.name);
      }
      BeforeAsymmetric(p.name, q.name);
    }
    PrependAscending(p, args);
  }

  lemma PrependAscending(p: Param, args: seq<Param>)
    requires NamesAscend(args) && forall q :: q in args ==> NameBefore(p, q)
    ensures NamesAscend([p] + args)
  {
  }

  /** The arguments of an item, in ascending order of their names: every name that was extracted for
      its signature, with the value extracted last. */
  lemma {:induction false} ArgsAreLast(entries: seq<Param>)
    ensures NamesAscend(PutAll([], entries))
    ensures forall p :: p in PutAll([], entries) <==> LastValue(entries, p.name) == Some(p.value)
  {
    if entries != [] {
      var init, last := entries[..|entries| - 1], entries[|entries| - 1];
      ArgsAreLast(init);
      PutKeepsOrder(PutAll([], init), last);
      hide Put, NamesAscend;
      forall p ensures p in PutAll([], entries) <==> LastValue(entries, p.name) == Some(p.value) {
        assert p in PutAll([], init) <==> LastValue(init, p.name) == Some(p.value);
        assert p == last <==> p.name == last.name && p.value == last.value;
      }
    }
  }

  /** The arguments of one entry alone. */
  function Own(params: MatchParams): seq<Param> {
    PutAll([], params.args.GetOr([]))
  }

  lemma LastValueConcat(a: seq<Param>, b: seq<Param>, name: string)
    ensures LastValue(a + b, name) == if LastValue(b, name).Some? then LastValue(b, name) else LastValue(a, name)
  {
    if b == [] {
      assert a + b == a;
    } else {
      assert (a + b)[..|a + b| - 1] == a + b[..|b| - 1];
      LastValueConcat(a, b[..|b| - 1], name);
    }
  }

  /** Two ascending lists of arguments with the same members are equal. */
  lemma AscendingUniqueParams(a: seq<Param>, b: seq<Param>)
    requires NamesAscend(a) && NamesAscend(b) && forall p :: p in a <==> p in b
    ensures a == b
  {
    AscendingInOrder(a);
    AscendingInOrder(b);
    NameOrder();
    SameMembers(a, b);
    SeparatesNames(a);
    hide NamesAscend, Distinct, InOrder, StrictWeak, Separates, NameBefore;
    OrderedUnique(a, b, NameBefore);
  }

  lemma SeparatesNames(a: seq<Param>)
    requires NamesAscend(a)
    ensures Separates(a, NameBefore)
  {
    forall p, q | p in a && q in a && !NameBefore(p, q) && !NameBefore(q, p) ensures p == q {
      var i :| 0 <= i < |a| && a[i] == p;
      var j :| 0 <= j < |a| && a[j] == q;
    }
  }

  ghost predicate SameLast(a: seq<Param>, b: seq<Param>) {
    forall name :: LastValue(a, name) == LastValue(b, name)
  }

  lemma SameLastValues(a: seq<Param>, b: seq<Param>)
    ensures PutAll([], a) == PutAll([], b) <==> SameLast(a, b)
  {
    if PutAll([], a) == PutAll([], b) {
      forall name ensures LastValue(a, name) == LastValue(b, name) {
        LastValueAgrees(a, b, name);
        LastValueAgrees(b, a, name);
      }
    }
    if SameLast(a, b) {
      SameArguments(a, b);
    }
    hide PutAll;
  }

  lemma SameArguments(a: seq<Param>, b: seq<Param>)
    requires SameLast(a, b)
    ensures PutAll([], a) == PutAll([], b)
  {
    ArgsAreLast(a);
    ArgsAreLast(b);
    hide PutAll, NamesAscend;
    forall p: Param ensures p in PutAll([], a) <==> p in PutAll([], b) {
      assert LastValue(a, p.name) == LastValue(b, p.name);
    }
    AscendingUniqueParams(PutAll([], a), PutAll([], b));
  }

  lemma LastValueAgrees(a: seq<Param>, b: seq<Param>, name: string)
    requires PutAll([], a) == PutAll([], b)
    ensures LastValue(a, name).Some? ==> LastValue(b, name) == LastValue(a, name)
  {
    ArgsAreLast(a);
    ArgsAreLast(b);
    if LastValue(a, name).Some? {
      assert Param(name, LastValue(a, name).value) in PutAll([], a);
    }
  }

  /** If all entries of a signature carry the same arguments, those are the merged ones. */
  lemma {:induction false} MergedSame(all: seq<MatchParams>, signature: string, own: seq<Param>, name: string)
    requires forall x :: x in all && x.signature == signature ==> Own(x) == PutAll([], own)
    ensures (exists x :: x in all && x.signature == signature) ==>
            LastValue(Entries(all, signature), name) == LastValue(own, name)
    ensures LastValue(Entries(all, signature), name).Some? ==>
            LastValue(Entries(all, signature), name) == LastValue(own, name)
  {
    if all != [] {
      var init, last := all[..|all| - 1], all[|all| - 1];
      assert all == init + [last];
      MergedSame(init, signature, own, name);
      LastValueConcat(Entries(init, signature), EntriesOf(last, signature), name);
      if last.signature == signature {
        assert last in all;
        SameLastValues(last.args.GetOr([]), own);
      } else {
        assert forall x :: x in all && x.signature == signature ==> x in init;
      }
      hide PutAll;
    }
  }

  /** Every item has an entry of its own, in the same order: what the EVM filter produces. */
  predicate OnePerItem(signatures: seq<string>, all: seq<MatchParams>) {
    |signatures| == |all| && forall i :: 0 <= i < |all| ==> all[i].signature == signatures[i]
  }

  /** The items as one would want them: each with the arguments of its own entry. */
  function OwnItems(all: seq<MatchParams>): seq<Item> {
    seq(|all|, i requires 0 <= i < |all| => Item(all[i].signature, Own(all[i])))
  }

  /** Entries of one signature are told apart by nothing: all of them go to every item of that signature.
      So the items carry their own arguments if and only if no two entries of the same signature differ
      in their arguments. */
  lemma OwnArgumentsIff(signatures: seq<string>, all: seq<MatchParams>)
    requires OnePerItem(signatures, all)
    ensures Items(signatures, Some(all)) == OwnItems(all) <==>
            forall i, j :: 0 <= i < j < |all| && signatures[i] == signatures[j] ==> Own(all[i]) == Own(all[j])
  {
    if forall i, j :: 0 <= i < j < |all| && signatures[i] == signatures[j] ==> Own(all[i]) == Own(all[j]) {
      forall i | 0 <= i < |all| ensures ArgsOf(Some(all), signatures[i]) == Own(all[i]) {
        forall x | x in all && x.signature == signatures[i] ensures Own(x) == Own(all[i]) {
          var j :| 0 <= j < |all| && all[j] == x;
        }
        OwnMerged(all, i);
      }
      hide ArgsOf, Own;
      assert forall i :: 0 <= i < |all| ==> Items(signatures, Some(all))[i] == OwnItems(all)[i];
    } else {
      var i, j :| 0 <= i < j < |all| && signatures[i] == signatures[j] && Own(all[i]) != Own(all[j]);
      hide ArgsOf, Own;
      assert Items(signatures, Some(all))[i].args == Items(signatures, Some(all))[j].args;
      assert OwnItems(all)[i].args != OwnItems(all)[j].args;
    }
  }

  lemma OwnMerged(all: seq<MatchParams>, i: nat)
    requires i < |all| && forall x :: x in all && x.signature == all[i].signature ==> Own(x) == Own(all[i])
    ensures ArgsOf(Some(all), all[i].signature) == Own(all[i])
  {
    var own := all[i].args.GetOr([]);
    forall name ensures LastValue(Entries(all, all[i].signature), name) == LastValue(own, name) {
      MergedSame(all, all[i].signature, own, name);
      assert all[i] in all;
    }
    SameLastValues(Entries(all, all[i].signature), own);
    hide PutAll, Entries, LastValue;
  }

  /** Two events of one signature in a transaction: both items get the arguments of the second. */
  lemma TwoOfASignature(signature: string, name: string, first: string, second: string)
    ensures var all := [MatchParams(signature, Some([Param(name, first)])),
            MatchParams(signature, Some([Param(name, second)]))];
            Items([signature, signature], Some(all))
            == [Item(signature, [Param(name, second)]), Item(signature, [Param(name, second)])]
  {
    var a, b := Param(name, first), Param(name, second);
    var x, y := MatchParams(signature, Some([a])), MatchParams(signature, Some([b]));
    assert [x, y][..1] == [x] && [x][..0] == [];
    assert Entries([x, y], signature) == Entries([x], signature) + [b] == (Entries([], signature) + [a]) + [b]
      == [a, b];
    assert [a, b][..1] == [a] && [a][..0] == [];
    assert PutAll([], [a]) == [a];
    if NameBefore(b, a) {
      BeforeAsymmetric(b.name, a.name);
    }
    assert PutAll([], [a, b]) == Put([a], b) == [b] + [a][1..] == [b];
    assert ArgsOf(Some([x, y]), signature) == PutAll([], Entries([x, y], signature)) == [b];
    hide ArgsOf, Entries, PutAll, Put;
    assert Items([signature, signature], Some([x, y])) == [Item(signature, [b]), Item(signature, [b])];
  }

  // ---------------------------------------------------------------------------------------
  // The JSON data of a match; objects list their members in ascending order of their keys.

  function ArgsJson(args: seq<Param>): Json {
    Obj(seq(|args|, i requires 0 <= i < |args| => Member(args[i].name, Str(args[i].value))))
  }

  function ItemJson(item: Item): Json {
    Obj([Member("args", ArgsJson(item.args)), Member("signature", Str(item.signature))])
  }

  function ItemsJson(items: seq<Item>): Json {
    Arr(seq(|items|, i requires 0 <= i < |items| => ItemJson(items[i])))
  }

  function Items(signatures: seq<string>, all: Option<seq<MatchParams>>): seq<Item> {
    seq(|signatures|, i requires 0 <= i < |signatures| => Item(signatures[i], ArgsOf(all, signatures[i])))
  }

  function TransactionJson(t: Transaction): Json {
    match t
    case Evm(hash, sender, value, None) =>
      Obj([Member("from", Str(sender)), Member("hash", Str(hash)), Member("value", Str(value))])
    case Evm(hash, sender, value, Some(receiver)) =>
      Obj([Member("from", Str(sender)), Member("hash", Str(hash)), Member("to", Str(receiver)),
        Member("value", Str(value))])
    case Hashed(hash) => Obj([Member("hash", Str(hash))])
    case Signed(signature) => Obj([Member("signature", Str(signature))])
  }

  function DataJson(monitor: string, transaction: Transaction, functions: Json, events: Json): Json {
    Obj([Member("events", events), Member("functions", functions),
         Member("monitor", Obj([Member("name", Str(monitor))])), Member("transaction", TransactionJson(transaction))])
  }

  function MatchJson(m: MonitorMatch): Json {
    DataJson(m.monitor, m.transaction,
             ItemsJson(Items(m.functions, m.functionArgs)), ItemsJson(Items(m.events, m.eventArgs)))
  }

  method PushItems(signatures: seq<string>, all: Option<seq<MatchParams>>) returns (items: seq<Json>)
    ensures Arr(items) == ItemsJson(Items(signatures, all))
  {
    items := [];
    for i := 0 to |signatures|
      invariant |items| == i
      invariant forall k :: 0 <= k < i ==> items[k] == ItemJson(Item(signatures[k], ArgsOf(all, signatures[k])))
    {
      hide ArgsOf, ItemJson;
      var args := CollectArgs(all, signatures[i]);
      items := items + [ItemJson(Item(signatures[i], args))];
    }
  }

  method HandleMatch(m: MonitorMatch) returns (variables: map<string, string>)
    ensures variables == Flattened(MatchJson(m))
  {
    var functions := PushItems(m.functions, m.functionArgs);
    var events := PushItems(m.events, m.eventArgs);
    variables := JsonToHashmap(DataJson(m.monitor, m.transaction, Arr(functions), Arr(events)));
  }

  // ---------------------------------------------------------------------------------------
  // No leaf of a match is lost.

  ghost predicate Ordered(items: seq<Item>) {
    forall i :: 0 <= i < |items| ==> NamesAscend(items[i].args)
  }

  lemma ItemsOrdered(signatures: seq<string>, all: Option<seq<MatchParams>>)
    ensures Ordered(Items(signatures, all))
  {
    forall i | 0 <= i < |signatures| ensures NamesAscend(Items(signatures, all)[i].args) {
      ArgsAreLast(Entries(all.GetOr([]), signatures[i]));
    }
  }

  lemma ArgsAddressable(args: seq<Param>)
    requires NamesAscend(args)
    ensures Addressable(ArgsJson(args))
  {
    var v := ArgsJson(args);
    forall i, j | 0 <= i < j < |v.members| ensures v.members[i].key != v.members[j].key {
      assert NameBefore(args[i], args[j]);
      BeforeAsymmetric(args[i].name, args[j].name);
    }
  }

  /** Keys that begin differently cannot meet. */
  lemma FirstCharsApart(a: string, v: Json, b: string, w: Json)
    requires a != "" && b != "" && a[0] != b[0]
    ensures Apart(a, v, b, w)
  {
    assert (a + ".")[0] == a[0] && (b + ".")[0] == b[0];
    assert |a + "."| <= |b| ==> b[..|a + "."|][0] == b[0];
    assert |b + "."| <= |a| ==> a[..|b + "."|][0] == a[0];
  }

  /** An object whose keys begin with different characters. */
  lemma DifferentInitials(v: Json)
    requires v.Obj? && forall i :: 0 <= i < |v.members| ==> v.members[i].key != "" && Addressable(v.members[i].value)
    requires forall i, j :: 0 <= i < j < |v.members| ==> v.members[i].key[0] != v.members[j].key[0]
    ensures Rooted(v)
  {
    forall i, j | 0 <= i < j < |v.members|
      ensures Apart(v.members[i].key, v.members[i].value, v.members[j].key, v.members[j].value)
    {
      FirstCharsApart(v.members[i].key, v.members[i].value, v.members[j].key, v.members[j].value);
    }
    hide Apart;
  }

  lemma ItemAddressable(item: Item)
    requires NamesAscend(item.args)
    ensures Addressable(ItemJson(item))
  {
    ArgsAddressable(item.args);
    hide ArgsJson;
    FirstCharsApart("args", ArgsJson(item.args), "signature", Str(item.signature));
  }

  lemma ItemsAddressable(items: seq<Item>)
    requires Ordered(items)
    ensures Addressable(ItemsJson(items))
  {
    hide ItemJson;
    forall i | 0 <= i < |items| ensures Addressable(ItemJson(items[i])) {
      ItemAddressable(items[i]);
    }
  }

  lemma TransactionAddressable(t: Transaction)
    ensures Addressable(TransactionJson(t))
  {
    assert "from"[0] == 'f' && "hash"[0] == 'h' && "to"[0] == 't' && "value"[0] == 'v';
    hide Apart;
    DifferentInitials(TransactionJson(t));
  }

  lemma MatchRooted(m: MonitorMatch)
    ensures Rooted(MatchJson(m))
  {
    ItemsOrdered(m.functions, m.functionArgs);
    ItemsOrdered(m.events, m.eventArgs);
    ItemsAddressable(Items(m.functions, m.functionArgs));
    ItemsAddressable(Items(m.events, m.eventArgs));
    hide Items, ItemsJson;
    DataRooted(m.monitor, m.transaction,
               ItemsJson(Items(m.functions, m.functionArgs)), ItemsJson(Items(m.events, m.eventArgs)));
  }

  lemma DataRooted(monitor: string, transaction: Transaction, functions: Json, events: Json)
    requires Addressable(functions) && Addressable(events)
    ensures Rooted(DataJson(monitor, transaction, functions, events))
  {
    TransactionAddressable(transaction);
    hide TransactionJson;
    assert "events"[0] == 'e' && "functions"[0] == 'f' && "monitor"[0] == 'm' && "transaction"[0] == 't';
    assert Addressable(Obj([Member("name", Str(monitor))]));
    hide Apart, Rooted;
    DifferentInitials(DataJson(monitor, transaction, functions, events));
  }

  // ---------------------------------------------------------------------------------------
  // The leaves of a match.

  /** The path of a part of the i-th item. */
  function KeyAt(prefix: string, i: nat, tail: string): string {
    prefix + "." + Show(i) + "." + tail
  }

  lemma KeysAt(prefix: string, i: nat, name: string)
    ensures SignatureKey(prefix, i) == KeyAt(prefix, i, "signature")
    ensures ArgsHead(prefix, i) + name == KeyAt(prefix, i, "args." + name)
  {
    hide Show;
    var stem := prefix + "." + Show(i);
    assert "." + "signature" == SIGNATURE;
    Associative(stem, ".", "signature");
    assert ".args." == "." + "args.";
    Associative(stem + ".", "args.", name);
    Associative(stem, ".", "args.");
  }

  lemma {:induction false} ArgLeaves(args: seq<Param>, prefix: string, leaf: Leaf)
    requires prefix != ""
    ensures leaf in Leaves(ArgsJson(args), prefix) <==>
            exists p :: p in args && leaf == Leaf(prefix + "." + p.name, p.value)
  {
    var v := ArgsJson(args);
    KidLeavesMembers(v, prefix, |args|, leaf);
    assert Leaves(v, prefix) == KidLeaves(v, prefix, |args|);
    assert forall i :: 0 <= i < |args| ==>
        Leaves(Kid(v, i), KidPath(v, prefix, i)) == [Leaf(prefix + "." + args[i].name, args[i].value)];
    hide Leaves, KidLeaves, Kid, KidPath, ArgsJson;
    if i :| 0 <= i < |args| && leaf in Leaves(Kid(v, i), KidPath(v, prefix, i)) {
      assert args[i] in args;
    }
    if p :| p in args && leaf == Leaf(prefix + "." + p.name, p.value) {
      var i :| 0 <= i < |args| && args[i] == p;
      assert leaf in Leaves(Kid(v, i), KidPath(v, prefix, i));
    }
  }

  lemma ItemLeaves(item: Item, prefix: string, leaf: Leaf)
    requires prefix != ""
    ensures leaf in Leaves(ItemJson(item), prefix) <==>
            || leaf == Leaf(prefix + ".signature", item.signature)
            || exists p :: p in item.args && leaf == Leaf(prefix + ".args." + p.name, p.value)
  {
    var v := ItemJson(item);
    ItemParts(item, prefix);
    ArgLeaves(item.args, prefix + ".args", leaf);
    hide Leaves, ArgsJson;
    forall p: Param ensures prefix + ".args" + "." + p.name == prefix + ".args." + p.name {
    }
  }

  lemma ItemParts(item: Item, prefix: string)
    requires prefix != ""
    ensures Leaves(ItemJson(item), prefix)
         == Leaves(ArgsJson(item.args), prefix + ".args") + [Leaf(prefix + ".signature", item.signature)]
  {
    var v := ItemJson(item);
    assert KidPath(v, prefix, 0) == prefix + ".args" && KidPath(v, prefix, 1) == prefix + ".signature";
    hide ArgsJson;
    assert Leaves(v, prefix) == KidLeaves(v, prefix, 2);
    assert KidLeaves(v, prefix, 2) == KidLeaves(v, prefix, 1) + Leaves(Str(item.signature), prefix + ".signature");
    assert KidLeaves(v, prefix, 1) == KidLeaves(v, prefix, 0) + Leaves(ArgsJson(item.args), prefix + ".args");
    assert KidLeaves(v, prefix, 0) == [];
    hide KidLeaves;
  }

  /** A leaf of the i-th item. */
  ghost predicate ItemLeaf(items: seq<Item>, prefix: string, i: nat, leaf: Leaf)
    requires i < |items|
  {
    || leaf == Leaf(KeyAt(prefix, i, "signature"), items[i].signature)
    || exists p :: p in items[i].args && leaf == Leaf(KeyAt(prefix, i, "args." + p.name), p.value)
  }

  lemma ItemsLeaves(items: seq<Item>, prefix: string, leaf: Leaf)
    requires prefix != ""
    ensures leaf in Leaves(ItemsJson(items), prefix) <==>
            exists i :: 0 <= i < |items| && ItemLeaf(items, prefix, i, leaf)
  {
    var v := ItemsJson(items);
    KidLeavesMembers(v, prefix, |items|, leaf);
    assert Leaves(v, prefix) == KidLeaves(v, prefix, |items|);
    forall i | 0 <= i < |items|
      ensures leaf in Leaves(Kid(v, i), KidPath(v, prefix, i)) <==> ItemLeaf(items, prefix, i, leaf)
    {
      OneItem(items, prefix, i, leaf);
    }
    hide Leaves, KidLeaves, Kid, KidPath, ItemsJson, ItemLeaf;
  }

  lemma OneItem(items: seq<Item>, prefix: string, i: nat, leaf: Leaf)
    requires prefix != "" && i < |items|
    ensures leaf in Leaves(ItemJson(items[i]), prefix + "." + Show(i)) <==> ItemLeaf(items, prefix, i, leaf)
  {
    hide Show, Leaves, ItemJson;
    var stem := prefix + "." + Show(i);
    ItemLeaves(items[i], stem, leaf);
    forall tail ensures KeyAt(prefix, i, tail) == stem + ("." + tail) {
    }
    assert ".signature" == "." + "signature";
    forall p: Param ensures stem + ".args." + p.name == KeyAt(prefix, i, "args." + p.name) {
      assert stem + ".args." + p.name == stem + ("." + ("args." + p.name));
    }
  }

  /** What a leaf of a match can be. */
  lemma MatchLeaves(m: MonitorMatch, leaf: Leaf)
    ensures leaf in Leaves(MatchJson(m), "") <==>
            || leaf in Leaves(ItemsJson(Items(m.events, m.eventArgs)), "events")
            || leaf in Leaves(ItemsJson(Items(m.functions, m.functionArgs)), "functions")
            || leaf == Leaf("monitor.name", m.monitor)
            || leaf in Leaves(TransactionJson(m.transaction), "transaction")
  {
    hide Items, ItemsJson, TransactionJson;
    DataLeaves(m.monitor, m.transaction,
               ItemsJson(Items(m.functions, m.functionArgs)), ItemsJson(Items(m.events, m.eventArgs)), leaf);
  }

  lemma NameLeaf(monitor: string)
    ensures Leaves(Obj([Member("name", Str(monitor))]), "monitor") == [Leaf("monitor.name", monitor)]
  {
    var v := Obj([Member("name", Str(monitor))]);
    assert KidPath(v, "monitor", 0) == "monitor.name";
    assert Leaves(v, "monitor") == KidLeaves(v, "monitor", 1);
    assert KidLeaves(v, "monitor", 1) == KidLeaves(v, "monitor", 0) + Leaves(Str(monitor), "monitor.name");
    assert KidLeaves(v, "monitor", 0) == [];
  }

  lemma DataKids(monitor: string, transaction: Transaction, functions: Json, events: Json)
    ensures var v := DataJson(monitor, transaction, functions, events);
            && Count(v) == 4 && Leaves(v, "") == KidLeaves(v, "", 4)
            && Kid(v, 0) == events && KidPath(v, "", 0) == "events"
            && Kid(v, 1) == functions && KidPath(v, "", 1) == "functions"
            && Kid(v, 2) == Obj([Member("name", Str(monitor))]) && KidPath(v, "", 2) == "monitor"
            && Kid(v, 3) == TransactionJson(transaction) && KidPath(v, "", 3) == "transaction"
  {
    hide TransactionJson, KidLeaves;
  }

  lemma DataLeaves(monitor: string, transaction: Transaction, functions: Json, events: Json, leaf: Leaf)
    ensures leaf in Leaves(DataJson(monitor, transaction, functions, events), "") <==>
            || leaf in Leaves(events, "events")
            || leaf in Leaves(functions, "functions")
            || leaf == Leaf("monitor.name", monitor)
            || leaf in Leaves(TransactionJson(transaction), "transaction")
  {
    hide *;
    var v := DataJson(monitor, transaction, functions, events);
    DataKids(monitor, transaction, functions, events);
    NameLeaf(monitor);
    KidLeavesMembers(v, "", 4, leaf);
    if i :| 0 <= i < 4 && leaf in Leaves(Kid(v, i), KidPath(v, "", i)) {
      assert i == 0 || i == 1 || i == 2 || i == 3;
    }
  }

  // ---------------------------------------------------------------------------------------
  // The variables of a match, one by one.

  /** The variables of a transaction: hash, sender, value and, if there is one, receiver; the hash alone;
      or the signature alone. */
  predicate TransactionVariable(t: Transaction, path: string, text: string) {
    match t
    case Evm(hash, sender, value, receiver) =>
      || (path == "transaction.hash" && text == hash)
      || (path == "transaction.from" && text == sender)
      || (path == "transaction.value" && text == value)
      || (path == "transaction.to" && receiver == Some(text))
    case Hashed(hash) => path == "transaction.hash" && text == hash
    case Signed(signature) => path == "transaction.signature" && text == signature
  }

  /** The variables of the i-th event or function: its signature and its arguments. */
  ghost predicate ItemVariable(items: seq<Item>, prefix: string, i: nat, path: string, text: string)
    requires i < |items|
  {
    || (path == prefix + "." + Show(i) + ".signature" && text == items[i].signature)
    || exists p :: p in items[i].args && path == prefix + "." + Show(i) + ".args." + p.name && text == p.value
  }

  lemma TransactionIsArgs(t: Transaction) returns (args: seq<Param>)
    ensures TransactionJson(t) == ArgsJson(args)
    ensures forall path, text ::
              TransactionVariable(t, path, text)
              <==> exists p :: p in args && path == "transaction" + "." + p.name && text == p.value
  {
    match t
    case Evm(hash, sender, value, None) =>
      args := [Param("from", sender), Param("hash", hash), Param("value", value)];
      TransactionNames();
    case Evm(hash, sender, value, Some(receiver)) =>
      args := [Param("from", sender), Param("hash", hash), Param("to", receiver), Param("value", value)];
      TransactionNames();
    case Hashed(hash) =>
      args := [Param("hash", hash)];
      TransactionNames();
    case Signed(signature) =>
      args := [Param("signature", signature)];
      TransactionNames();
  }

  lemma TransactionNames()
    ensures "transaction" + "." + "hash" == "transaction.hash" && "transaction" + "." + "from" == "transaction.from"
    ensures "transaction" + "." + "value" == "transaction.value" && "transaction" + "." + "to" == "transaction.to"
    ensures "transaction" + "." + "signature" == "transaction.signature"
  {
  }

  lemma TransactionLeaves(t: Transaction, path: string, text: string)
    ensures Leaf(path, text) in Leaves(TransactionJson(t), "transaction") <==> TransactionVariable(t, path, text)
  {
    var args := TransactionIsArgs(t);
    hide TransactionJson, ArgsJson, Leaves, TransactionVariable;
    ArgLeaves(args, "transaction", Leaf(path, text));
  }

  lemma ItemLeafIsVariable(items: seq<Item>, prefix: string, i: nat, path: string, text: string)
    requires i < |items|
    ensures ItemLeaf(items, prefix, i, Leaf(path, text)) <==> ItemVariable(items, prefix, i, path, text)
  {
    hide Show;
    forall p: Param ensures KeyAt(prefix, i, "args." + p.name) == prefix + "." + Show(i) + ".args." + p.name {
      KeysAt(prefix, i, p.name);
    }
    KeysAt(prefix, i, "");
    hide KeyAt;
  }

  /** All variables of a match and nothing else: the name of the monitor, those of the transaction, and
      for the i-th event and the i-th function its signature and its arguments. */
  lemma VariablesAre(m: MonitorMatch, path: string, text: string)
    ensures (path in Flattened(MatchJson(m)) && Flattened(MatchJson(m))[path] == text) <==>
            var events, functions := Items(m.events, m.eventArgs), Items(m.functions, m.functionArgs);
            || (path == "monitor.name" && text == m.monitor)
            || TransactionVariable(m.transaction, path, text)
            || (exists i :: 0 <= i < |events| && ItemVariable(events, "events", i, path, text))
            || (exists i :: 0 <= i < |functions| && ItemVariable(functions, "functions", i, path, text))
  {
    var events, functions := Items(m.events, m.eventArgs), Items(m.functions, m.functionArgs);
    MatchRooted(m);
    FlattenKeepsLeaves(MatchJson(m));
    MatchLeaves(m, Leaf(path, text));
    TransactionLeaves(m.transaction, path, text);
    ItemsLeaves(events, "events", Leaf(path, text));
    ItemsLeaves(functions, "functions", Leaf(path, text));
    hide *;
    forall i | 0 <= i < |events|
      ensures ItemLeaf(events, "events", i, Leaf(path, text)) <==> ItemVariable(events, "events", i, path, text)
    {
      ItemLeafIsVariable(events, "events", i, path, text);
    }
    forall i | 0 <= i < |functions|
      ensures ItemLeaf(functions, "functions", i, Leaf(path, text))
              <==> ItemVariable(functions, "functions", i, path, text)
    {
      ItemLeafIsVariable(functions, "functions", i, path, text);
    }
  }
}
