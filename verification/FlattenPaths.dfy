/** Flattening, described by the ways through a JSON value: which entries the map has, and which value wins
    when two ways spell the same path. */
module FlattenPaths {
  import opened Decimal
  import opened Flatten

  /** Going from v, already named by prefix, through the parts at the given positions leads to the primitive
      value that is written as text, under the given path. */
  predicate Leads(v: Json, prefix: string, way: seq<nat>, path: string, text: string)
    decreases |way|
  {
    match v
    case Obj(members) =>
      && way != [] && way[0] < |members|
      && var name := members[way[0]].key;
         Leads(members[way[0]].value, if prefix == "" then name else prefix + "." + name, way[1..], path, text)
    case Arr(items) =>
      way != [] && way[0] < |items| && Leads(items[way[0]], prefix + "." + Show(way[0]), way[1..], path, text)
    case Str(s) => way == [] && Named(prefix, path) && text == s
    case Num(s) => way == [] && Named(prefix, path) && text == s
    case Bool(b) => way == [] && Named(prefix, path) && text == (if b then "true" else "false")
    case Null => way == [] && Named(prefix, path) && text == "null"
  }

  /** A value without a name is called "value". */
  predicate Named(prefix: string, path: string) {
    path == if prefix == "" then "value" else prefix
  }

  /** The second way turns right where the ways part. */
  predicate Later(way: seq<nat>, other: seq<nat>) {
    way != [] && other != [] && (way[0] < other[0] || (way[0] == other[0] && Later(way[1..], other[1..])))
  }

  /** No later way leads to the same path. */
  ghost predicate LeadsLast(v: Json, prefix: string, way: seq<nat>, path: string, text: string) {
    Leads(v, prefix, way, path, text) && forall other, t :: Leads(v, prefix, other, path, t) ==> !Later(way, other)
  }

  ghost predicate Reaches(v: Json, prefix: string, path: string) {
    exists way, t :: Leads(v, prefix, way, path, t)
  }

  ghost predicate Maps(m: map<string, string>, path: string, text: string) {
    path in m && m[path] == text
  }

  /** Only the first n parts of v are entered. */
  ghost predicate KidLeads(v: Json, prefix: string, n: nat, way: seq<nat>, path: string, text: string) {
    way != [] && way[0] < n && Leads(v, prefix, way, path, text)
  }

  ghost predicate KidReaches(v: Json, prefix: string, n: nat, path: string) {
    exists way, t :: KidLeads(v, prefix, n, way, path, t)
  }

  ghost predicate KidLeadsLast(v: Json, prefix: string, n: nat, way: seq<nat>, path: string, text: string) {
    && KidLeads(v, prefix, n, way, path, text)
    && forall other, t :: KidLeads(v, prefix, n, other, path, t) ==> !Later(way, other)
  }

  lemma LeadsInto(v: Json, prefix: string, way: seq<nat>, path: string, text: string)
    requires !Primitive(v)
    ensures Leads(v, prefix, way, path, text) <==>
            way != [] && way[0] < Count(v) && Leads(Kid(v, way[0]), KidPath(v, prefix, way[0]), way[1..], path, text)
  {
    if way != [] && way[0] < Count(v) {
      if v.Obj? {
        MemberPath(v, prefix, way[0]);
      } else {
        ItemPath(v, prefix, way[0]);
      }
    }
    hide KidPath;
  }

  lemma OneEntry(v: Json, prefix: string)
    requires Primitive(v)
    ensures LastWins(map[], Leaves(v, prefix)) == map[PrimitiveKey(prefix) := PrimitiveText(v)]
  {
    var leaf := Leaf(PrimitiveKey(prefix), PrimitiveText(v));
    assert Leaves(v, prefix) == [leaf] && [leaf][..0] == [];
    LastWinsNil(map[]);
  }

  lemma LeadsHere(v: Json, prefix: string, way: seq<nat>, path: string, text: string)
    requires Primitive(v)
    ensures Leads(v, prefix, way, path, text) <==>
            way == [] && Maps(LastWins(map[], Leaves(v, prefix)), path, text)
  {
    OneEntry(v, prefix);
    hide LastWins, Leaves;
  }

  /** Insertion after insertion: later leaves win. */
  lemma {:induction false} LaterLeavesWin(a: map<string, string>, leaves: seq<Leaf>, path: string)
    ensures var b := LastWins(map[], leaves);
            && (path in LastWins(a, leaves) <==> path in a || path in b)
            && (path in b ==> LastWins(a, leaves)[path] == b[path])
            && (path in a && path !in b ==> LastWins(a, leaves)[path] == a[path])
  {
    if leaves != [] {
      LaterLeavesWin(a, leaves[..|leaves| - 1], path);
    }
  }

  /** The entry for a path is the value to which the last way with that path leads. */
  lemma {:induction false} WinsIff(v: Json, prefix: string, path: string, text: string)
    ensures Maps(LastWins(map[], Leaves(v, prefix)), path, text) <==>
            exists way :: LeadsLast(v, prefix, way, path, text)
    ensures path in LastWins(map[], Leaves(v, prefix)) <==> Reaches(v, prefix, path)
    decreases v, 1, 0
  {
    if Primitive(v) {
      PrimitiveWins(v, prefix, path, text);
    } else {
      LeavesOfKids(v, prefix);
      KidsWinIff(v, prefix, Count(v), path, text);
      hide *;
      WholeWins(v, prefix, path, text);
    }
  }

  lemma PrimitiveWins(v: Json, prefix: string, path: string, text: string)
    requires Primitive(v)
    ensures Maps(LastWins(map[], Leaves(v, prefix)), path, text) <==>
            exists way :: LeadsLast(v, prefix, way, path, text)
    ensures path in LastWins(map[], Leaves(v, prefix)) <==> Reaches(v, prefix, path)
  {
    forall way, t ensures Leads(v, prefix, way, path, t) <==>
      way == [] && Maps(LastWins(map[], Leaves(v, prefix)), path, t) {
      LeadsHere(v, prefix, way, path, t);
    }
    hide Leads, LastWins, Leaves;
    if Maps(LastWins(map[], Leaves(v, prefix)), path, text) {
      assert LeadsLast(v, prefix, [], path, text);
    }
    if path in LastWins(map[], Leaves(v, prefix)) {
      assert Leads(v, prefix, [], path, LastWins(map[], Leaves(v, prefix))[path]);
    }
  }

  lemma LeavesOfKids(v: Json, prefix: string)
    requires !Primitive(v)
    ensures Leaves(v, prefix) == KidLeaves(v, prefix, Count(v))
  {
  }

  lemma WholeWins(v: Json, prefix: string, path: string, text: string)
    requires !Primitive(v)
    ensures forall way :: LeadsLast(v, prefix, way, path, text) <==> KidLeadsLast(v, prefix, Count(v), way, path, text)
    ensures Reaches(v, prefix, path) <==> KidReaches(v, prefix, Count(v), path)
  {
    forall way, t ensures Leads(v, prefix, way, path, t) <==> KidLeads(v, prefix, Count(v), way, path, t) {
      LeadsInto(v, prefix, way, path, t);
    }
    hide Leads, KidLeads, Later;
  }

  lemma {:induction false} KidsWinIff(v: Json, prefix: string, n: nat, path: string, text: string)
    requires !Primitive(v) && n <= Count(v)
    ensures Maps(LastWins(map[], KidLeaves(v, prefix, n)), path, text) <==>
            exists way :: KidLeadsLast(v, prefix, n, way, path, text)
    ensures path in LastWins(map[], KidLeaves(v, prefix, n)) <==> KidReaches(v, prefix, n, path)
    decreases v, 0, n
  {
    hide *;
    if n == 0 {
      KidLeavesNil(v, prefix);
      LastWinsNil(map[]);
      NoKidLeads(v, prefix, path);
      NothingMaps(path, text);
    } else {
      var kid, name := Kid(v, n - 1), KidPath(v, prefix, n - 1);
      var before, here := LastWins(map[], KidLeaves(v, prefix, n - 1)), LastWins(map[], Leaves(kid, name));
      KidsWinIff(v, prefix, n - 1, path, text);
      WinsIff(kid, name, path, text);
      KidLeavesSnoc(v, prefix, n - 1);
      LastWinsConcat(map[], KidLeaves(v, prefix, n - 1), Leaves(kid, name));
      LaterLeavesWin(before, Leaves(kid, name), path);
      var all := LastWins(before, Leaves(kid, name));
      MapsCases(before, here, all, path, text);
      if path in here {
        LastIsHere(v, prefix, n, n - 1, kid, name, path, text);
      } else {
        LastIsBefore(v, prefix, n, n - 1, kid, name, path, text);
      }
    }
  }

  lemma NothingMaps(path: string, text: string)
    ensures !Maps(map[], path, text)
  {
  }

  lemma NoKidLeads(v: Json, prefix: string, path: string)
    ensures forall way, t :: !KidLeadsLast(v, prefix, 0, way, path, t)
    ensures !KidReaches(v, prefix, 0, path)
  {
  }

  lemma MapsCases(before: map<string, string>, here: map<string, string>, all: map<string, string>, path: string,
                  text: string)
    requires path in all <==> path in before || path in here
    requires path in here ==> all[path] == here[path]
    requires path in before && path !in here ==> all[path] == before[path]
    ensures Maps(all, path, text) <==> if path in here then Maps(here, path, text) else Maps(before, path, text)
  {
  }

  /** A way through the first n parts goes through the last of them, or through the others. */
  lemma OneMoreKid(v: Json, prefix: string, n: nat, m: nat, kid: Json, name: string, path: string)
    requires !Primitive(v) && n == m + 1 <= Count(v) && kid == Kid(v, m) && name == KidPath(v, prefix, m)
    ensures forall way, t :: KidLeads(v, prefix, n, way, path, t) <==>
              || KidLeads(v, prefix, m, way, path, t)
              || (way != [] && way[0] == m && Leads(kid, name, way[1..], path, t))
    ensures forall way, t :: Leads(kid, name, way, path, t) ==>
              KidLeads(v, prefix, n, [m] + way, path, t)
  {
    forall way, t
      ensures KidLeads(v, prefix, n, way, path, t) <==>
              || KidLeads(v, prefix, m, way, path, t)
              || (way != [] && way[0] == m && Leads(kid, name, way[1..], path, t))
    {
      LeadsInto(v, prefix, way, path, t);
    }
    forall way, t | Leads(kid, name, way, path, t)
      ensures KidLeads(v, prefix, n, [m] + way, path, t)
    {
      LeadsInto(v, prefix, [m] + way, path, t);
      assert ([m] + way)[1..] == way;
    }
  }

  lemma LaterInside(k: nat, way: seq<nat>, other: seq<nat>)
    ensures Later([k] + way, [k] + other) <==> Later(way, other)
  {
    assert ([k] + way)[1..] == way && ([k] + other)[1..] == other;
  }

  /** If a way through the last part has the path, the last way is one of those. */
  lemma LastIsHere(v: Json, prefix: string, n: nat, m: nat, kid: Json, name: string, path: string, text: string)
    requires !Primitive(v) && n == m + 1 <= Count(v) && kid == Kid(v, m) && name == KidPath(v, prefix, m)
    requires Reaches(kid, name, path)
    ensures (exists way :: KidLeadsLast(v, prefix, n, way, path, text)) <==>
            exists way :: LeadsLast(kid, name, way, path, text)
    ensures KidReaches(v, prefix, n, path)
  {
    OneMoreKid(v, prefix, n, m, kid, name, path);
    var some, t :| Leads(kid, name, some, path, t);
    assert KidLeads(v, prefix, n, [m] + some, path, t);
    hide Leads, Kid, KidPath;
    if way :| KidLeadsLast(v, prefix, n, way, path, text) {
      assert !Later(way, [m] + some);
      assert way[0] == m;
      LastInside(v, prefix, n, m, kid, name, way, path, text);
    }
    if way :| LeadsLast(kid, name, way, path, text) {
      LastOutside(v, prefix, n, m, kid, name, way, path, text);
    }
  }

  lemma LastInside(v: Json, prefix: string, n: nat, m: nat, kid: Json, name: string, way: seq<nat>, path: string,
                   text: string)
    requires !Primitive(v) && n == m + 1 <= Count(v) && kid == Kid(v, m) && name == KidPath(v, prefix, m)
    requires KidLeadsLast(v, prefix, n, way, path, text) && way[0] == m
    ensures LeadsLast(kid, name, way[1..], path, text)
  {
    OneMoreKid(v, prefix, n, m, kid, name, path);
    hide Leads, Kid, KidPath;
    assert way == [m] + way[1..];
    forall other, t | Leads(kid, name, other, path, t) ensures !Later(way[1..], other) {
      assert KidLeads(v, prefix, n, [m] + other, path, t);
      LaterInside(m, way[1..], other);
    }
  }

  lemma LastOutside(v: Json, prefix: string, n: nat, m: nat, kid: Json, name: string, way: seq<nat>, path: string,
                    text: string)
    requires !Primitive(v) && n == m + 1 <= Count(v) && kid == Kid(v, m) && name == KidPath(v, prefix, m)
    requires LeadsLast(kid, name, way, path, text)
    ensures KidLeadsLast(v, prefix, n, [m] + way, path, text)
  {
    OneMoreKid(v, prefix, n, m, kid, name, path);
    hide Leads, Kid, KidPath;
    forall other, t | KidLeads(v, prefix, n, other, path, t) ensures !Later([m] + way, other) {
      if other[0] == m {
        LaterInside(m, way, other[1..]);
        assert other == [m] + other[1..];
      }
    }
  }

  lemma LastIsBefore(v: Json, prefix: string, n: nat, m: nat, kid: Json, name: string, path: string, text: string)
    requires !Primitive(v) && n == m + 1 <= Count(v) && kid == Kid(v, m) && name == KidPath(v, prefix, m)
    requires !Reaches(kid, name, path)
    ensures (exists way :: KidLeadsLast(v, prefix, n, way, path, text)) <==>
            exists way :: KidLeadsLast(v, prefix, m, way, path, text)
    ensures KidReaches(v, prefix, n, path) <==> KidReaches(v, prefix, m, path)
  {
    OneMoreKid(v, prefix, n, m, kid, name, path);
    hide Leads, KidLeads, Later, Kid, KidPath;
    forall way, t ensures KidLeads(v, prefix, n, way, path, t) <==> KidLeads(v, prefix, m, way, path, t) {
    }
    if way :| KidLeadsLast(v, prefix, n, way, path, text) {
      assert KidLeadsLast(v, prefix, m, way, path, text);
    }
    if way :| KidLeadsLast(v, prefix, m, way, path, text) {
      assert KidLeadsLast(v, prefix, n, way, path, text);
    }
  }

  /** Flattening any JSON value: the map has an entry for a path exactly if some way through the value has
      that path, and its text is what the last of those ways leads to. */
  lemma FlattenTakesLast(v: Json, path: string, text: string)
    ensures (path in Flattened(v) && Flattened(v)[path] == text) <==> exists way :: LeadsLast(v, "", way, path, text)
  {
    WinsIff(v, "", path, text);
    hide LeadsLast, LastWins, Leaves;
  }
}
