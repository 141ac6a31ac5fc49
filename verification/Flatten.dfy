/** Flattening of a JSON value into a map from dotted paths to texts. */
module Flatten {
  import opened Decimal
  import opened Template

  datatype Member = Member(key: string, value: Json)

  datatype Json =
    | Obj(members: seq<Member>)
    | Arr(items: seq<Json>)
    | Str(text: string)
    | Num(text: string)
    | Bool(b: bool)
    | Null

  predicate Primitive(v: Json) {
    !v.Obj? && !v.Arr?
  }

  function PrimitiveText(v: Json): string
    requires Primitive(v)
  {
    match v
    case Str(text) => text
    case Num(text) => text
    case Bool(b) => if b then "true" else "false"
    case Null => "null"
  }

  datatype Leaf = Leaf(path: string, text: string)

  function Count(v: Json): nat {
    match v
    case Obj(members) => |members|
    case Arr(items) => |items|
    case _ => 0
  }

  function Kid(v: Json, i: nat): (w: Json)
    requires i < Count(v)
    ensures w < v
  {
    match v
    case Obj(members) => members[i].value
    case Arr(items) => items[i]
  }

  /** The name of the i-th part: its key, or its decimal index. */
  function KidName(v: Json, i: nat): string
    requires i < Count(v)
  {
    match v
    case Obj(members) => members[i].key
    case Arr(_) => Show(i)
  }

  /** A key of the outermost object is its own path; otherwise a dot separates. */
  function Stem(v: Json, prefix: string): string {
    if v.Obj? && prefix == "" then "" else prefix + "."
  }

  function KidPath(v: Json, prefix: string, i: nat): string
    requires i < Count(v)
  {
    Stem(v, prefix) + KidName(v, i)
  }

  function PrimitiveKey(prefix: string): string {
    if prefix == "" then "value" else prefix
  }

  /** All primitive values with their paths, in the order of the traversal. */
  function Leaves(v: Json, prefix: string): seq<Leaf>
    decreases v, 1, 0
  {
    if Primitive(v) then [Leaf(PrimitiveKey(prefix), PrimitiveText(v))] else KidLeaves(v, prefix, Count(v))
  }

  function KidLeaves(v: Json, prefix: string, n: nat): seq<Leaf>
    requires n <= Count(v)
    decreases v, 0, n
  {
    if n == 0 then []
    else KidLeaves(v, prefix, n - 1) + Leaves(Kid(v, n - 1), KidPath(v, prefix, n - 1))
  }

  /** Insertion of the leaves one after the other: a later leaf replaces an earlier one of its path. */
  function LastWins(m: map<string, string>, leaves: seq<Leaf>): map<string, string> {
    if leaves == [] then m
    else LastWins(m, leaves[..|leaves| - 1])[leaves[|leaves| - 1].path := leaves[|leaves| - 1].text]
  }

  function Flattened(v: Json): map<string, string> {
    LastWins(map[], Leaves(v, ""))
  }

  method JsonToHashmap(json: Json) returns (result: map<string, string>)
    ensures result == Flattened(json)
  {
    result := FlattenJsonPath(json, "", map[]);
  }

  method FlattenJsonPath(value: Json, prefix: string, before: map<string, string>) returns (result: map<string, string>)
    ensures result == LastWins(before, Leaves(value, prefix))
    decreases value
  {
    hide *;
    result := before;
    WholeLeaves(value, prefix);
    KidLeavesNil(value, prefix);
    LastWinsNil(before);
    match value
    case Obj(members) =>
      for i := 0 to |members|
        invariant result == LastWins(before, KidLeaves(value, prefix, i))
      {
        var newPrefix := if prefix == "" then members[i].key else prefix + "." + members[i].key;
        MemberPath(value, prefix, i);
        KidLeavesSnoc(value, prefix, i);
        LastWinsConcat(before, KidLeaves(value, prefix, i), Leaves(members[i].value, newPrefix));
        result := FlattenJsonPath(members[i].value, newPrefix, result);
      }
    case Arr(items) =>
      for i := 0 to |items|
        invariant result == LastWins(before, KidLeaves(value, prefix, i))
      {
        var newPrefix := prefix + "." + Show(i);
        ItemPath(value, prefix, i);
        KidLeavesSnoc(value, prefix, i);
        LastWinsConcat(before, KidLeaves(value, prefix, i), Leaves(items[i], newPrefix));
        result := FlattenJsonPath(items[i], newPrefix, result);
      }
    case Str(text) => result := InsertPrimitive(prefix, result, text);
    case Num(text) => result := InsertPrimitive(prefix, result, text);
    case Bool(b) => result := InsertPrimitive(prefix, result, if b then "true" else "false");
    case Null => result := InsertPrimitive(prefix, result, "null");
  }

  lemma WholeLeaves(v: Json, prefix: string)
    ensures !v.Obj? && !v.Arr? ==>
              Leaves(v, prefix) == [Leaf(PrimitiveKey(prefix),
                match v
                case Str(t) => t
                case Num(t) => t
                case Bool(b) => (if b then "true" else "false")
                case _ => "null")]
    ensures v.Obj? ==> Count(v) == |v.members| && Leaves(v, prefix) == KidLeaves(v, prefix, |v.members|)
    ensures v.Arr? ==> Count(v) == |v.items| && Leaves(v, prefix) == KidLeaves(v, prefix, |v.items|)
  {
  }

  lemma MemberPath(v: Json, prefix: string, i: nat)
    requires v.Obj? && i < |v.members|
    ensures i < Count(v) && Kid(v, i) == v.members[i].value
    ensures KidPath(v, prefix, i) == if prefix == "" then v.members[i].key else prefix + "." + v.members[i].key
  {
  }

  lemma ItemPath(v: Json, prefix: string, i: nat)
    requires v.Arr? && i < |v.items|
    ensures i < Count(v) && Kid(v, i) == v.items[i] && KidPath(v, prefix, i) == prefix + "." + Show(i)
  {
  }

  method InsertPrimitive(prefix: string, before: map<string, string>, text: string)
      returns (result: map<string, string>)
    ensures result == LastWins(before, [Leaf(PrimitiveKey(prefix), text)])
  {
    var key := if prefix == "" then "value" else prefix;
    result := before[key := text];
    assert [Leaf(key, text)][..0] == [];
  }

  lemma LastWinsNil(m: map<string, string>)
    ensures LastWins(m, []) == m
  {
  }

  lemma {:induction false} LastWinsConcat(m: map<string, string>, a: seq<Leaf>, b: seq<Leaf>)
    ensures LastWins(m, a + b) == LastWins(LastWins(m, a), b)
  {
    if b == [] {
      assert a + b == a;
    } else {
      LastWinsConcat(m, a, b[..|b| - 1]);
      assert (a + b)[..|a + b| - 1] == a + b[..|b| - 1];
    }
  }

  lemma KidLeavesSnoc(v: Json, prefix: string, n: nat)
    requires n < Count(v)
    ensures KidLeaves(v, prefix, n + 1) == KidLeaves(v, prefix, n) + Leaves(Kid(v, n), KidPath(v, prefix, n))
  {
    hide Leaves, KidPath;
  }

  lemma KidLeavesNil(v: Json, prefix: string)
    ensures KidLeaves(v, prefix, 0) == []
  {
  }

  lemma {:induction false} KidLeavesMembers(v: Json, prefix: string, n: nat, leaf: Leaf)
    requires n <= Count(v)
    ensures leaf in KidLeaves(v, prefix, n) <==>
            exists i :: 0 <= i < n && leaf in Leaves(Kid(v, i), KidPath(v, prefix, i))
  {
    hide *;
    if n > 0 {
      KidLeavesMembers(v, prefix, n - 1, leaf);
      KidLeavesSnoc(v, prefix, n - 1);
      if leaf in Leaves(Kid(v, n - 1), KidPath(v, prefix, n - 1)) {
      } else if i :| 0 <= i < n && leaf in Leaves(Kid(v, i), KidPath(v, prefix, i)) {
        assert i < n - 1;
      }
    } else {
      KidLeavesNil(v, prefix);
    }
  }

  // ---------------------------------------------------------------------------------------
  // No leaf is lost exactly if the paths are distinct.

  ghost predicate DistinctPaths(leaves: seq<Leaf>) {
    forall i, j :: 0 <= i < j < |leaves| ==> leaves[i].path != leaves[j].path
  }

  lemma {:induction false} LastWinsKeys(leaves: seq<Leaf>, path: string)
    ensures path in LastWins(map[], leaves) <==> exists i :: 0 <= i < |leaves| && leaves[i].path == path
  {
    if leaves != [] {
      var init := leaves[..|leaves| - 1];
      LastWinsKeys(init, path);
      assert forall i :: 0 <= i < |init| ==> init[i] == leaves[i];
      if leaves[|leaves| - 1].path == path {
      } else if i :| 0 <= i < |leaves| && leaves[i].path == path {
        assert init[i].path == path;
      }
    }
  }

  /** For any JSON value: one entry per leaf if and only if no two leaves share a path. */
  lemma {:induction false} NoneLostIffDistinct(leaves: seq<Leaf>)
    ensures |LastWins(map[], leaves)| <= |leaves|
    ensures |LastWins(map[], leaves)| == |leaves| <==> DistinctPaths(leaves)
  {
    if leaves != [] {
      var init, last := leaves[..|leaves| - 1], leaves[|leaves| - 1];
      NoneLostIffDistinct(init);
      LastWinsKeys(init, last.path);
      var m := LastWins(map[], init);
      assert LastWins(map[], leaves) == m[last.path := last.text];
      UpdateSize(m, last.path, last.text);
      hide LastWins;
      assert forall i :: 0 <= i < |init| ==> init[i] == leaves[i];
      if DistinctPaths(init) && last.path !in m {
        forall i, j | 0 <= i < j < |leaves| ensures leaves[i].path != leaves[j].path {
          assert init[i] == leaves[i];
        }
      }
    }
  }

  lemma UpdateSize(m: map<string, string>, k: string, v: string)
    ensures |m[k := v]| == |m| + if k in m then 0 else 1
  {
    assert m[k := v].Keys == m.Keys + {k};
    assert |m[k := v].Keys| == |m.Keys| + if k in m then 0 else 1;
  }

  /** Then the map holds exactly the leaves. */
  lemma {:induction false} LastWinsLeaves(leaves: seq<Leaf>, path: string, text: string)
    requires DistinctPaths(leaves)
    ensures (path in LastWins(map[], leaves) && LastWins(map[], leaves)[path] == text) <==> Leaf(path, text) in leaves
  {
    if leaves != [] {
      var init, last := leaves[..|leaves| - 1], leaves[|leaves| - 1];
      LastWinsLeaves(init, path, text);
      assert leaves == init + [last];
      LastApart(init, last);
    }
  }

  lemma LastApart(init: seq<Leaf>, last: Leaf)
    requires DistinctPaths(init + [last])
    ensures forall leaf :: leaf in init ==> leaf.path != last.path
  {
    forall leaf | leaf in init ensures leaf.path != last.path {
      var i :| 0 <= i < |init| && init[i] == leaf;
      assert (init + [last])[i].path != (init + [last])[|init|].path;
    }
  }

  // ---------------------------------------------------------------------------------------
  // Values whose paths are distinct.

  /** Parts of these names cannot meet: the names differ, and neither begins with the other one followed by
      a dot, unless the other one names a primitive value. */
  predicate Apart(a: string, v: Json, b: string, w: Json) {
    && a != b
    && (Primitive(v) || !StartsWith(b, a + "."))
    && (Primitive(w) || !StartsWith(a, b + "."))
  }

  predicate Addressable(v: Json) {
    match v
    case Obj(members) =>
      && (forall i, j :: 0 <= i < j < |members| ==>
            Apart(members[i].key, members[i].value, members[j].key, members[j].value))
      && (forall i :: 0 <= i < |members| ==> Addressable(members[i].value))
    case Arr(items) => forall i :: 0 <= i < |items| ==> Addressable(items[i])
    case _ => true
  }

  /** The outermost object has no empty key in addition. */
  predicate Rooted(v: Json) {
    Addressable(v) && (v.Obj? ==> forall i :: 0 <= i < |v.members| ==> v.members[i].key != "")
  }

  predicate Under(path: string, base: string) {
    path == base || StartsWith(path, base + ".")
  }

  lemma {:induction false} LeavesUnder(v: Json, prefix: string, leaf: Leaf)
    requires prefix != "" && leaf in Leaves(v, prefix)
    ensures Under(leaf.path, prefix)
    ensures Primitive(v) ==> leaf.path == prefix
    decreases v, 1, 0
  {
    if !Primitive(v) {
      var i := KidLeavesUnder(v, prefix, Count(v), leaf);
    }
  }

  lemma {:induction false} KidLeavesUnder(v: Json, prefix: string, n: nat, leaf: Leaf) returns (i: nat)
    requires n <= Count(v) && leaf in KidLeaves(v, prefix, n)
    requires prefix != "" || forall k :: 0 <= k < Count(v) ==> KidPath(v, prefix, k) != ""
    ensures i < n && leaf in Leaves(Kid(v, i), KidPath(v, prefix, i))
    ensures Under(leaf.path, KidPath(v, prefix, i)) && (Primitive(Kid(v, i)) ==> leaf.path == KidPath(v, prefix, i))
    ensures prefix != "" ==> Under(leaf.path, prefix)
    decreases v, 0, n
  {
    KidLeavesMembers(v, prefix, n, leaf);
    hide Leaves, KidLeaves, Under;
    i :| 0 <= i < n && leaf in Leaves(Kid(v, i), KidPath(v, prefix, i));
    LeavesUnder(Kid(v, i), KidPath(v, prefix, i), leaf);
    if prefix != "" {
      UnderLonger(leaf.path, prefix, KidName(v, i));
    }
  }

  lemma UnderLonger(path: string, prefix: string, name: string)
    requires Under(path, prefix + "." + name)
    ensures Under(path, prefix)
  {
    var base := prefix + ".";
    assert path[..|base + name|] == base + name;
    assert path[..|base|] == path[..|base + name|][..|base|] == base;
  }

  lemma UnderBegins(path: string, base: string)
    requires Under(path, base)
    ensures StartsWith(path, base) && (|base| < |path| ==> path[|base|] == '.')
  {
    if path != base {
      assert path[..|base| + 1] == base + ".";
      assert path[..|base|] == path[..|base| + 1][..|base|];
    }
  }

  /** The paths below two such names differ. */
  lemma PathsApart(stem: string, a: string, v: Json, b: string, w: Json, p: string, q: string)
    requires Apart(a, v, b, w) && |a| <= |b|
    requires Under(p, stem + a) && (Primitive(v) ==> p == stem + a) && Under(q, stem + b)
    ensures p != q
  {
    UnderBegins(p, stem + a);
    UnderBegins(q, stem + b);
    assert (stem + a)[|stem|..] == a && (stem + b)[|stem|..] == b;
    if |a| < |b| {
      var m := |stem + a|;
      assert q[..m] == (stem + b)[..m] == stem + b[..|a|];
      assert q[m] == (stem + b)[m] == b[|a|];
      if b[..|a|] == a && b[|a|] == '.' {
        assert b[..|a| + 1] == a + ".";
      } else {
        assert (stem + b[..|a|])[|stem|..] == b[..|a|];
      }
    }
  }

  lemma DigitsPlain(i: nat)
    ensures Free(Show(i), '.') && Show(i) != ""
  {
    var s := Show(i);
    forall k | 0 <= k < |s| ensures s[k] != '.' {
      assert IsDigit(s[k]);
    }
  }

  ghost predicate FullPaths(v: Json, prefix: string) {
    forall i :: 0 <= i < Count(v) ==> KidPath(v, prefix, i) != ""
  }

  lemma AddressableKids(v: Json)
    requires Addressable(v)
    ensures forall i :: 0 <= i < Count(v) ==> Addressable(Kid(v, i))
    ensures forall i, j :: 0 <= i < j < Count(v) ==> Apart(KidName(v, i), Kid(v, i), KidName(v, j), Kid(v, j))
  {
    if v.Arr? {
      forall i, j | 0 <= i < j < Count(v) ensures Apart(KidName(v, i), Kid(v, i), KidName(v, j), Kid(v, j)) {
        IndexesApart(i, j, Kid(v, i), Kid(v, j));
      }
    }
  }

  lemma IndexesApart(i: nat, j: nat, v: Json, w: Json)
    requires i != j
    ensures Apart(Show(i), v, Show(j), w)
  {
    DigitsPlain(i);
    DigitsPlain(j);
    hide Show;
    if Show(i) == Show(j) {
      ShowInjective(i, j);
    }
    NoDotNoExtension(Show(i), Show(j));
    NoDotNoExtension(Show(j), Show(i));
  }

  lemma NoDotNoExtension(a: string, b: string)
    requires Free(b, '.')
    ensures !StartsWith(b, a + ".")
  {
    assert (a + ".")[|a|] == '.';
    assert |a| < |b| ==> b[..|a| + 1][|a|] == b[|a|] != '.';
  }

  lemma KidsApart(v: Json, prefix: string, i: nat, j: nat, p: string, q: string)
    requires i < j < Count(v) && Apart(KidName(v, i), Kid(v, i), KidName(v, j), Kid(v, j))
    requires Under(p, KidPath(v, prefix, i)) && (Primitive(Kid(v, i)) ==> p == KidPath(v, prefix, i))
    requires Under(q, KidPath(v, prefix, j)) && (Primitive(Kid(v, j)) ==> q == KidPath(v, prefix, j))
    ensures p != q
  {
    var stem, a, b := Stem(v, prefix), KidName(v, i), KidName(v, j);
    hide Under, Stem, Kid, KidName, Primitive;
    if |a| <= |b| {
      PathsApart(stem, a, Kid(v, i), b, Kid(v, j), p, q);
    } else {
      PathsApart(stem, b, Kid(v, j), a, Kid(v, i), q, p);
    }
  }

  /** Only at the root can a path be empty. */
  lemma PathsFull(v: Json, prefix: string)
    requires prefix != "" || (Addressable(v) && Rooted(v))
    ensures FullPaths(v, prefix)
  {
  }

  lemma {:induction false} PathsDistinct(v: Json, prefix: string)
    requires Addressable(v) && FullPaths(v, prefix)
    ensures DistinctPaths(Leaves(v, prefix))
    decreases v, 1, 0
  {
    if !Primitive(v) {
      KidPathsDistinct(v, prefix, Count(v));
    }
  }

  lemma {:induction false} KidPathsDistinct(v: Json, prefix: string, n: nat)
    requires Addressable(v) && FullPaths(v, prefix) && n <= Count(v)
    ensures DistinctPaths(KidLeaves(v, prefix, n))
    decreases v, 0, n
  {
    hide *;
    if n == 0 {
      KidLeavesNil(v, prefix);
      NoPaths();
    } else {
      KidAddressable(v, prefix, n - 1);
      PathsFull(Kid(v, n - 1), KidPath(v, prefix, n - 1));
      KidPathsDistinct(v, prefix, n - 1);
      KidLeavesSnoc(v, prefix, n - 1);
      PathsDistinct(Kid(v, n - 1), KidPath(v, prefix, n - 1));
      AllKidLeavesApart(v, prefix, n - 1);
      DistinctPathsConcat(KidLeaves(v, prefix, n - 1), Leaves(Kid(v, n - 1), KidPath(v, prefix, n - 1)));
    }
  }

  lemma NoPaths()
    ensures DistinctPaths([])
  {
  }

  lemma AllKidLeavesApart(v: Json, prefix: string, n: nat)
    requires Addressable(v) && FullPaths(v, prefix) && n < Count(v)
    ensures forall x, y :: x in KidLeaves(v, prefix, n) && y in Leaves(Kid(v, n), KidPath(v, prefix, n)) ==>
            x.path != y.path
  {
    hide *;
    forall x, y | x in KidLeaves(v, prefix, n) && y in Leaves(Kid(v, n), KidPath(v, prefix, n))
      ensures x.path != y.path {
      KidLeavesApart(v, prefix, n, x, y);
    }
  }

  lemma KidAddressable(v: Json, prefix: string, i: nat)
    requires Addressable(v) && FullPaths(v, prefix) && i < Count(v)
    ensures Addressable(Kid(v, i)) && KidPath(v, prefix, i) != ""
  {
    AddressableKids(v);
  }

  lemma KidLeavesApart(v: Json, prefix: string, n: nat, x: Leaf, y: Leaf)
    requires Addressable(v) && FullPaths(v, prefix) && n < Count(v)
    requires x in KidLeaves(v, prefix, n) && y in Leaves(Kid(v, n), KidPath(v, prefix, n))
    ensures x.path != y.path
  {
    AddressableKids(v);
    hide Leaves, KidLeaves, Under, Addressable, KidPath, Kid, Apart;
    var i := KidLeavesUnder(v, prefix, n, x);
    LeavesUnder(Kid(v, n), KidPath(v, prefix, n), y);
    KidsApart(v, prefix, i, n, x.path, y.path);
  }

  lemma DistinctPathsConcat(a: seq<Leaf>, b: seq<Leaf>)
    requires DistinctPaths(a) && DistinctPaths(b) && forall x, y :: x in a && y in b ==> x.path != y.path
    ensures DistinctPaths(a + b)
  {
    forall i, j | 0 <= i < j < |a + b| ensures (a + b)[i].path != (a + b)[j].path {
      if i < |a| <= j {
        assert a[i] in a && b[j - |a|] in b;
      }
    }
  }

  /** For such values flattening overwrites no leaf, and the map holds exactly the leaves. */
  lemma FlattenKeepsLeaves(v: Json)
    requires Rooted(v)
    ensures |Flattened(v)| == |Leaves(v, "")|
    ensures forall path, text ::
              (path in Flattened(v) && Flattened(v)[path] == text) <==> Leaf(path, text) in Leaves(v, "")
  {
    PathsFull(v, "");
    PathsDistinct(v, "");
    hide Leaves, Addressable;
    NoneLostIffDistinct(Leaves(v, ""));
    forall path, text
      ensures (path in Flattened(v) && Flattened(v)[path] == text) <==> Leaf(path, text) in Leaves(v, "")
    {
      LastWinsLeaves(Leaves(v, ""), path, text);
    }
  }

  // ---------------------------------------------------------------------------------------
  // Which keys are safe whatever values they carry.

  function ObjectOf(keys: seq<string>, values: seq<Json>): Json
    requires |keys| == |values|
  {
    Obj(seq(|keys|, i requires 0 <= i < |keys| => Member(keys[i], values[i])))
  }

  /** No key is empty or repeated, or begins with another key followed by a dot. */
  predicate SafeKeys(keys: seq<string>) {
    && "" !in keys
    && forall i, j :: 0 <= i < |keys| && 0 <= j < |keys| && i != j ==>
      keys[i] != keys[j] && !StartsWith(keys[j], keys[i] + ".")
  }

  ghost predicate LosesNothing(v: Json) {
    |Flattened(v)| == |Leaves(v, "")|
  }

  /** The exact condition on the keys of an object: flattening it loses no leaf, whatever values without
      collisions of their own the keys carry, if and only if no key is empty or repeated, and none
      begins with another key followed by a dot. */
  lemma SafeKeysIff(keys: seq<string>)
    ensures SafeKeys(keys) <==>
            (forall values: seq<Json> :: |values| == |keys| && (forall v :: v in values ==> Addressable(v)) ==>
               LosesNothing(ObjectOf(keys, values)))
  {
    if SafeKeys(keys) {
      forall values: seq<Json> | |values| == |keys| && (forall v :: v in values ==> Addressable(v))
        ensures LosesNothing(ObjectOf(keys, values))
      {
        SafeKeysSuffice(keys, values);
      }
    } else {
      var values := CollidingValues(keys);
    }
  }

  lemma SafeKeysSuffice(keys: seq<string>, values: seq<Json>)
    requires SafeKeys(keys) && |values| == |keys| && forall v :: v in values ==> Addressable(v)
    ensures LosesNothing(ObjectOf(keys, values))
  {
    var v := ObjectOf(keys, values);
    forall i, j | 0 <= i < j < |keys|
      ensures Apart(v.members[i].key, v.members[i].value, v.members[j].key, v.members[j].value)
    {
      assert keys[i] != keys[j] && !StartsWith(keys[j], keys[i] + ".") && !StartsWith(keys[i], keys[j] + ".");
    }
    forall i | 0 <= i < |keys| ensures Addressable(v.members[i].value) && v.members[i].key != "" {
      assert values[i] in values && keys[i] in keys;
    }
    assert Rooted(v);
    hide Rooted, Addressable, ObjectOf;
    FlattenKeepsLeaves(v);
  }

  /** Two parts that yield the same path lose a leaf. */
  lemma CollisionLoses(v: Json, i: nat, j: nat, x: Leaf, y: Leaf)
    requires i < j < Count(v) && x.path == y.path
    requires x in Leaves(Kid(v, i), KidPath(v, "", i)) && y in Leaves(Kid(v, j), KidPath(v, "", j))
    ensures !LosesNothing(v)
  {
    hide *;
    LeavesAreKids(v, "");
    LosesNothingIff(v);
    KidLeavesMembers(v, "", j, x);
    KidLeavesSnoc(v, "", j);
    KidLeavesPrefix(v, "", j + 1, Count(v));
    SharedPath(KidLeaves(v, "", j), Leaves(Kid(v, j), KidPath(v, "", j)), Leaves(v, ""), x, y);
  }

  lemma LeavesAreKids(v: Json, prefix: string)
    requires 0 < Count(v)
    ensures Leaves(v, prefix) == KidLeaves(v, prefix, Count(v))
  {
  }

  lemma LosesNothingIff(v: Json)
    ensures LosesNothing(v) <==> DistinctPaths(Leaves(v, ""))
  {
    NoneLostIffDistinct(Leaves(v, ""));
  }

  lemma SharedPath(before: seq<Leaf>, here: seq<Leaf>, leaves: seq<Leaf>, x: Leaf, y: Leaf)
    requires before + here <= leaves && x in before && y in here && x.path == y.path
    ensures !DistinctPaths(leaves)
  {
    var a :| 0 <= a < |before| && before[a] == x;
    var b :| 0 <= b < |here| && here[b] == y;
    assert (before + here)[a] == x && (before + here)[|before| + b] == y;
    assert leaves[a] == x && leaves[|before| + b] == y;
  }

  lemma {:induction false} KidLeavesPrefix(v: Json, prefix: string, m: nat, n: nat)
    requires m <= n <= Count(v)
    ensures KidLeaves(v, prefix, m) <= KidLeaves(v, prefix, n)
  {
    hide *;
    if m < n {
      KidLeavesPrefix(v, prefix, m, n - 1);
      KidLeavesSnoc(v, prefix, n - 1);
    }
  }

  lemma CollidingValues(keys: seq<string>) returns (values: seq<Json>)
    requires !SafeKeys(keys)
    ensures |values| == |keys| && (forall v :: v in values ==> Addressable(v))
    ensures !LosesNothing(ObjectOf(keys, values))
  {
    if "" in keys {
      var i :| 0 <= i < |keys| && keys[i] == "";
      values := seq(|keys|, k requires 0 <= k < |keys| => if k == i then EMPTY_KEYED else Null);
      EmptyKeyLoses(keys, values, i);
    } else {
      var i, j :| 0 <= i < |keys| && 0 <= j < |keys| && i != j
        && (keys[i] == keys[j] || StartsWith(keys[j], keys[i] + "."));
      if keys[i] == keys[j] {
        values := seq(|keys|, _ => Null);
        RepeatedKeyLoses(keys, values, if i < j then i else j, if i < j then j else i);
      } else {
        var rest := keys[j][|keys[i]| + 1..];
        values := seq(|keys|, k requires 0 <= k < |keys| => if k == i then Obj([Member(rest, Null)]) else Null);
        ExtendedKeyLoses(keys, values, i, j, rest);
      }
    }
  }

  const EMPTY_KEYED := Obj([Member("", Null), Member("value", Null)])

  lemma KidOf(keys: seq<string>, values: seq<Json>, i: nat)
    requires |keys| == |values| && i < |keys|
    ensures var v := ObjectOf(keys, values);
            Count(v) == |keys| && Kid(v, i) == values[i] && KidPath(v, "", i) == keys[i]
  {
  }

  lemma RepeatedKeyLoses(keys: seq<string>, values: seq<Json>, i: nat, j: nat)
    requires |keys| == |values| && i < j < |keys| && keys[i] == keys[j] != "" && values[i] == values[j] == Null
    ensures !LosesNothing(ObjectOf(keys, values))
  {
    KidOf(keys, values, i);
    KidOf(keys, values, j);
    var leaf := Leaf(keys[i], "null");
    assert Leaves(Null, keys[i]) == [leaf];
    hide ObjectOf, Kid, KidPath, LosesNothing;
    CollisionLoses(ObjectOf(keys, values), i, j, leaf, leaf);
  }

  lemma LeavesOfOne(key: string, prefix: string)
    requires prefix != ""
    ensures Leaves(Obj([Member(key, Null)]), prefix) == [Leaf(prefix + "." + key, "null")]
  {
    var v := Obj([Member(key, Null)]);
    assert KidPath(v, prefix, 0) == prefix + "." + key;
    KidLeavesSnoc(v, prefix, 0);
    KidLeavesNil(v, prefix);
    assert Leaves(Null, prefix + "." + key) == [Leaf(prefix + "." + key, "null")];
  }

  lemma ExtendedKeyLoses(keys: seq<string>, values: seq<Json>, i: nat, j: nat, rest: string)
    requires |keys| == |values| && i < |keys| && j < |keys| && i != j && keys[i] != ""
    requires StartsWith(keys[j], keys[i] + ".") && rest == keys[j][|keys[i]| + 1..]
    requires values[i] == Obj([Member(rest, Null)]) && values[j] == Null
    ensures !LosesNothing(ObjectOf(keys, values))
  {
    KidOf(keys, values, i);
    KidOf(keys, values, j);
    LeavesOfOne(rest, keys[i]);
    var leaf := Leaf(keys[j], "null");
    assert Leaves(Null, keys[j]) == [leaf];
    assert keys[j] == keys[i] + "." + rest;
    hide ObjectOf, Kid, KidPath, LosesNothing, StartsWith, Leaves;
    if i < j {
      CollisionLoses(ObjectOf(keys, values), i, j, leaf, leaf);
    } else {
      CollisionLoses(ObjectOf(keys, values), j, i, leaf, leaf);
    }
  }

  /** Below an empty key the paths start afresh, and two leaves can both be called "value". */
  lemma EmptyKeyLoses(keys: seq<string>, values: seq<Json>, i: nat)
    requires |keys| == |values| && i < |keys| && keys[i] == "" && values[i] == EMPTY_KEYED
    ensures !LosesNothing(ObjectOf(keys, values))
  {
    KidOf(keys, values, i);
    EmptyKeyedLeaves();
    var v := ObjectOf(keys, values);
    hide *;
    LeavesAreKids(v, "");
    LosesNothingIff(v);
    KidLeavesSnoc(v, "", i);
    KidLeavesPrefix(v, "", i + 1, Count(v));
    TwiceInARow(KidLeaves(v, "", i), Leaf("value", "null"), Leaves(v, ""));
  }

  lemma TwiceInARow(before: seq<Leaf>, leaf: Leaf, leaves: seq<Leaf>)
    requires before + [leaf, leaf] <= leaves
    ensures !DistinctPaths(leaves)
  {
    assert (before + [leaf, leaf])[|before|] == leaf && (before + [leaf, leaf])[|before| + 1] == leaf;
    assert leaves[|before|] == leaf && leaves[|before| + 1] == leaf;
  }

  lemma EmptyKeyedLeaves()
    ensures Leaves(EMPTY_KEYED, "") == [Leaf("value", "null"), Leaf("value", "null")] && Addressable(EMPTY_KEYED)
  {
    var v := EMPTY_KEYED;
    assert KidPath(v, "", 0) == "" && KidPath(v, "", 1) == "value";
    KidLeavesNil(v, "");
    KidLeavesSnoc(v, "", 0);
    KidLeavesSnoc(v, "", 1);
    assert Leaves(Null, "") == [Leaf("value", "null")] && Leaves(Null, "value") == [Leaf("value", "null")];
  }
}
