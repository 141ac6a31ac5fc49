/** The ledger of missed blocks and the file storage that holds it. */
module Ledger {
  import opened Basics
  import opened Gaps
  import Decimal

  datatype Status = Pending | Recovering | Recovered | Failed

  datatype Entry = Entry(number: nat, retries: nat, status: Status)

  function NewEntry(n: nat): Entry {
    Entry(n, 0, Pending)
  }

  function Keys(l: seq<Entry>): (ns: set<nat>)
    ensures forall n :: n in ns <==> exists e :: e in l && e.number == n
  {
    set e | e in l :: e.number
  }

  ghost predicate UniqueKeys(l: seq<Entry>) {
    forall i, j :: 0 <= i < j < |l| ==> l[i].number != l[j].number
  }

  /** Fresh entries for the listed numbers that are not yet known. */
  function Fresh(known: set<nat>, blocks: seq<nat>): seq<Entry> {
    if blocks == [] then []
    else
      var before, n := Fresh(known, blocks[..|blocks| - 1]), blocks[|blocks| - 1];
      if n in known then before else before + [NewEntry(n)]
  }

  /** Saving gaps: known numbers keep their entry, the others are appended. */
  function AddMissing(l: seq<Entry>, blocks: seq<nat>): seq<Entry> {
    l + Fresh(Keys(l), blocks)
  }

  /** A new status; going back to Pending or to Failed counts as one more retry. */
  function Updated(e: Entry, status: Status): Entry {
    Entry(e.number, if status.Pending? || status.Failed? then e.retries + 1 else e.retries, status)
  }

  /** Updates the first entry with the given number, if there is one. */
  function SetStatus(l: seq<Entry>, n: nat, status: Status): seq<Entry> {
    if l == [] then []
    else if l[0].number == n then [Updated(l[0], status)] + l[1..]
    else [l[0]] + SetStatus(l[1..], n, status)
  }

  function Select(l: seq<Entry>, keep: Entry -> bool): (r: seq<Entry>)
    ensures forall e :: e in r <==> e in l && keep(e)
    ensures |r| <= |l|
  {
    if l == [] then []
    else if keep(l[0]) then [l[0]] + Select(l[1..], keep)
    else Select(l[1..], keep)
  }

  function NotOlder(least: nat): Entry -> bool {
    (e: Entry) => least <= e.number
  }

  function NotIn(ns: set<nat>): Entry -> bool {
    (e: Entry) => e.number !in ns
  }

  function Retryable(least: nat, maxRetries: nat): Entry -> bool {
    (e: Entry) => least <= e.number && e.status == Pending && e.retries < maxRetries
  }

  function Prune(l: seq<Entry>, least: nat): seq<Entry> {
    Select(l, NotOlder(least))
  }

  function Remove(l: seq<Entry>, ns: set<nat>): seq<Entry> {
    Select(l, NotIn(ns))
  }

  function Eligible(l: seq<Entry>, least: nat, maxRetries: nat): seq<Entry> {
    Select(l, Retryable(least, maxRetries))
  }

  /** Reading the legacy text file: one number per line, other lines ignored, repeats dropped. */
  function Migrated(lines: seq<string>): seq<Entry> {
    if lines == [] then []
    else
      var before := Migrated(lines[..|lines| - 1]);
      match Decimal.ParseU64(lines[|lines| - 1])
      case Some(n) => if n in Keys(before) then before else before + [NewEntry(n)]
      case None => before
  }

  function Without<T>(s: seq<T>, n: nat): seq<T> {
    if |s| <= n then [] else s[n..]
  }

  // ---------------------------------------------------------------------------------------
  // File storage. Every operation takes a flag telling whether its file accesses succeed; if
  // they do not, it returns false, possibly after having migrated the legacy file.

  class FileBlockStorage {
    var lastBlock: Option<nat>
    var missedJson: Option<seq<Entry>>
    var missedText: Option<seq<string>>
    var blockFiles: seq<seq<Block>>

    constructor ()
      ensures lastBlock == None && MissedBlocks() == [] && blockFiles == []
    {
      lastBlock, missedJson, missedText, blockFiles := None, None, None, [];
    }

    /** The ledger as the next load will see it: the JSON file wins over the legacy text file. */
    function MissedBlocks(): seq<Entry>
      reads this
    {
      if missedJson.Some? then missedJson.value
      else if missedText.Some? then Migrated(missedText.value)
      else []
    }

    /** Loads the ledger, converting the legacy file on the way. */
    method LoadMissedBlocks() returns (entries: seq<Entry>)
      modifies this`missedJson, this`missedText
      ensures entries == MissedBlocks() == old(MissedBlocks())
      ensures old(missedJson).Some? ==> entries == old(missedJson).value
      ensures old(missedJson).None? && old(missedText).Some? ==> entries == Migrated(old(missedText).value)
      ensures old(missedJson).None? && old(missedText).None? ==> entries == []
      ensures missedJson.Some? || missedText.None?
    {
      if missedJson.Some? {
        return missedJson.value;
      }
      if missedText.None? {
        return [];
      }
      var lines := missedText.value;
      entries := [];
      var seen: set<nat> := {};
      for i := 0 to |lines|
        invariant entries == Migrated(lines[..i])
        invariant seen == Keys(entries)
      {
        assert lines[..i + 1][..i] == lines[..i];
        var parsed := Decimal.ParseU64(lines[i]);
        if parsed.Some? && parsed.value !in seen {
          entries := entries + [NewEntry(parsed.value)];
          seen := seen + {parsed.value};
        }
      }
      assert lines[..|lines|] == lines;
      missedJson := Some(entries);
      missedText := None;
    }

    method SaveMissedBlocks(blocks: seq<nat>, ok: bool) returns (r: bool)
      modifies this`missedJson, this`missedText
      ensures r == (ok || blocks == [])
      ensures MissedBlocks() == if r then AddMissing(old(MissedBlocks()), blocks) else old(MissedBlocks())
    {
      if blocks == [] {
        assert MissedBlocks() + [] == MissedBlocks();
        return true;
      }
      if !ok {
        MaybeMigrate();
        return false;
      }
      var entries := LoadMissedBlocks();
      var known := Keys(entries);
      ghost var before := entries;
      for i := 0 to |blocks|
        invariant entries == before + Fresh(known, blocks[..i])
      {
        assert blocks[..i + 1][..i] == blocks[..i];
        if blocks[i] !in known {
          entries := entries + [NewEntry(blocks[i])];
        }
      }
      assert blocks[..|blocks|] == blocks;
      missedJson := Some(entries);
      r := true;
    }

    method GetMissedBlocks(maxAge: nat, current: nat, maxRetries: nat, ok: bool) returns (r: Option<seq<Entry>>)
      modifies this`missedJson, this`missedText
      ensures MissedBlocks() == old(MissedBlocks())
      ensures r == if ok then Some(Eligible(old(MissedBlocks()), SatSub(current, maxAge), maxRetries)) else None
    {
      if !ok {
        MaybeMigrate();
        return None;
      }
      var entries := LoadMissedBlocks();
      r := Some(Select(entries, Retryable(SatSub(current, maxAge), maxRetries)));
    }

    method UpdateMissedBlockStatus(n: nat, status: Status, ok: bool) returns (r: bool)
      modifies this`missedJson, this`missedText
      ensures r == ok
      ensures MissedBlocks() == if ok then SetStatus(old(MissedBlocks()), n, status) else old(MissedBlocks())
    {
      if !ok {
        MaybeMigrate();
        return false;
      }
      var entries := LoadMissedBlocks();
      entries := UpdateFirst(entries, n, status);
      missedJson := Some(entries);
      r := true;
    }

    /** Finds the first entry with the given number and updates it in place. */
    static method UpdateFirst(before: seq<Entry>, n: nat, status: Status) returns (entries: seq<Entry>)
      ensures entries == SetStatus(before, n, status)
    {
      entries := before;
      for i := 0 to |entries|
        invariant entries == before
        invariant SetStatus(before, n, status) == before[..i] + SetStatus(before[i..], n, status)
      {
        SetStatusAt(before, i, n, status);
        hide SetStatus, Updated;
        if entries[i].number == n {
          entries := entries[i := Updated(entries[i], status)];
          return;
        }
      }
      assert before[..|before|] + SetStatus([], n, status) == before;
    }

    method RemoveRecoveredBlocks(ns: seq<nat>, ok: bool) returns (r: bool)
      modifies this`missedJson, this`missedText
      ensures r == (ok || ns == [])
      ensures MissedBlocks() == if r then Remove(old(MissedBlocks()), Elems(ns)) else old(MissedBlocks())
    {
      if ns == [] {
        SelectAll(MissedBlocks(), NotIn(Elems(ns)));
        return true;
      }
      if !ok {
        MaybeMigrate();
        return false;
      }
      var entries := LoadMissedBlocks();
      missedJson := Some(Select(entries, NotIn(Elems(ns))));
      r := true;
    }

    /** Returns the number of pruned entries. */
    method PruneOldMissedBlocks(maxAge: nat, current: nat, ok: bool) returns (r: Option<nat>)
      modifies this`missedJson, this`missedText
      ensures r == if ok then Some(|old(MissedBlocks())| - |Prune(old(MissedBlocks()), SatSub(current, maxAge))|)
              else None
      ensures MissedBlocks() == if ok then Prune(old(MissedBlocks()), SatSub(current, maxAge)) else old(MissedBlocks())
    {
      if !ok {
        MaybeMigrate();
        return None;
      }
      var entries := LoadMissedBlocks();
      var remaining := Select(entries, NotOlder(SatSub(current, maxAge)));
      var pruned := |entries| - |remaining|;
      if 0 < pruned {
        missedJson := Some(remaining);
      } else {
        SelectFull(entries, NotOlder(SatSub(current, maxAge)));
      }
      r := Some(pruned);
    }

    /** What a failing operation may have done before it failed. */
    method MaybeMigrate()
      modifies this`missedJson, this`missedText
      ensures MissedBlocks() == old(MissedBlocks())
    {
      if * {
        var _ := LoadMissedBlocks();
      }
    }

    /** Deletes the block files one by one; a failing deletion leaves those not yet deleted. */
    method DeleteBlocks(ok: bool, deleted: nat) returns (r: bool)
      modifies this`blockFiles
      ensures r == ok
      ensures blockFiles == if ok then [] else Without(old(blockFiles), deleted)
    {
      ghost var files := blockFiles;
      var i := 0;
      while blockFiles != [] && (ok || i < deleted)
        invariant i <= |files| && blockFiles == files[i..] && (ok || i <= deleted)
        decreases |blockFiles|
      {
        blockFiles := blockFiles[1..];
        i := i + 1;
      }
      r := ok;
    }

    /** One new file per save. */
    method SaveBlocks(blocks: seq<Block>, ok: bool) returns (r: bool)
      modifies this`blockFiles
      ensures r == ok
      ensures blockFiles == if ok then old(blockFiles) + [blocks] else old(blockFiles)
    {
      if ok {
        blockFiles := blockFiles + [blocks];
      }
      r := ok;
    }

    method SaveLastProcessedBlock(n: nat, ok: bool) returns (r: bool)
      modifies this`lastBlock
      ensures r == ok && lastBlock == if ok then Some(n) else old(lastBlock)
    {
      if ok {
        lastBlock := Some(n);
      }
      r := ok;
    }
  }

  // ---------------------------------------------------------------------------------------
  // What the operations do to the entries.

  /** One step of the search for the first entry with a number. */
  lemma SetStatusAt(l: seq<Entry>, i: nat, n: nat, status: Status)
    requires i < |l|
    ensures l[i].number == n ==> l[..i] + SetStatus(l[i..], n, status) == l[i := Updated(l[i], status)]
    ensures l[i].number != n ==> l[..i] + SetStatus(l[i..], n, status) == l[..i + 1] + SetStatus(l[i + 1..], n, status)
  {
    hide Updated;
    var rest := l[i..];
    assert rest[0] == l[i] && rest[1..] == l[i + 1..];
    assert l[..i + 1] == l[..i] + [l[i]];
  }

  lemma {:induction false} SelectFull(l: seq<Entry>, keep: Entry -> bool)
    requires |Select(l, keep)| == |l|
    ensures Select(l, keep) == l
  {
    if l != [] {
      SelectFull(l[1..], keep);
    }
  }

  lemma {:induction false} SelectAll(l: seq<Entry>, keep: Entry -> bool)
    requires forall e :: e in l ==> keep(e)
    ensures Select(l, keep) == l
  {
    if l != [] {
      SelectAll(l[1..], keep);
    }
  }

  lemma {:induction false} SelectUnique(l: seq<Entry>, keep: Entry -> bool)
    requires UniqueKeys(l)
    ensures UniqueKeys(Select(l, keep))
  {
    if l != [] {
      SelectUnique(l[1..], keep);
      var rest := Select(l[1..], keep);
      forall i | 0 <= i < |rest| ensures rest[i].number != l[0].number {
        assert rest[i] in l[1..];
      }
    }
  }

  /** What the selection lets through: entries that are Pending, below the retry limit, and at most maxAge
      below the current block. */
  lemma SelectedIff(l: seq<Entry>, maxAge: nat, current: nat, maxRetries: nat, e: Entry)
    ensures e in Eligible(l, SatSub(current, maxAge), maxRetries) <==>
            e in l && e.status == Pending && e.retries < maxRetries && current <= e.number + maxAge
  {
  }

  /** Pruning keeps exactly the entries at most maxAge below the current block. */
  lemma PrunedIff(l: seq<Entry>, maxAge: nat, current: nat, e: Entry)
    ensures e in Prune(l, SatSub(current, maxAge)) <==> e in l && current <= e.number + maxAge
  {
  }

  lemma UniqueEntry(l: seq<Entry>, e: Entry, f: Entry)
    requires UniqueKeys(l) && e in l && f in l && e.number == f.number
    ensures e == f
  {
  }

  /** A status update touches only the first entry of the number, also when numbers repeat. */
  lemma {:induction false} SetStatusFirst(l: seq<Entry>, n: nat, status: Status, i: nat)
    requires i < |l| && l[i].number == n && forall j :: 0 <= j < i ==> l[j].number != n
    ensures SetStatus(l, n, status) == l[i := Updated(l[i], status)]
    ensures Updated(l[i], status)
            == Entry(n, if status == Pending || status == Failed then l[i].retries + 1 else l[i].retries, status)
  {
    if 0 < i {
      SetStatusFirst(l[1..], n, status, i - 1);
      assert l[i := Updated(l[i], status)] == [l[0]] + l[1..][i - 1 := Updated(l[i], status)];
    }
  }

  lemma {:induction false} SetStatusNone(l: seq<Entry>, n: nat, status: Status)
    requires n !in Keys(l)
    ensures SetStatus(l, n, status) == l
  {
    if l != [] {
      assert l[0].number != n;
      SetStatusNone(l[1..], n, status);
    }
  }

  /** With unique numbers a status update changes exactly the entry of that number. */
  lemma {:induction false} SetStatusMembers(l: seq<Entry>, n: nat, status: Status)
    requires UniqueKeys(l)
    ensures var l' := SetStatus(l, n, status);
            && |l'| == |l|
            && (forall i :: 0 <= i < |l| ==> l'[i] == if l[i].number == n then Updated(l[i], status) else l[i])
            && UniqueKeys(l') && Keys(l') == Keys(l)
  {
    if l != [] && l[0].number != n {
      SetStatusMembers(l[1..], n, status);
    }
    SetStatusKeys(l, SetStatus(l, n, status));
  }

  lemma SetStatusKeys(l: seq<Entry>, l': seq<Entry>)
    requires |l| == |l'| && forall i :: 0 <= i < |l| ==> l[i].number == l'[i].number
    ensures Keys(l) == Keys(l')
  {
    forall n ensures n in Keys(l) <==> n in Keys(l') {
      if n in Keys(l) {
        var i :| 0 <= i < |l| && l[i].number == n;
        assert l'[i] in l' && l'[i].number == n;
      }
      if n in Keys(l') {
        var i :| 0 <= i < |l'| && l'[i].number == n;
        assert l[i] in l && l[i].number == n;
      }
    }
  }

  lemma {:induction false} FreshMembers(known: set<nat>, blocks: seq<nat>)
    ensures forall e :: e in Fresh(known, blocks) <==>
            e.number in blocks && e.number !in known && e == NewEntry(e.number)
    ensures Distinct(blocks) ==> UniqueKeys(Fresh(known, blocks))
  {
    if blocks != [] {
      var before, n := blocks[..|blocks| - 1], blocks[|blocks| - 1];
      FreshMembers(known, before);
      assert blocks == before + [n];
      if Distinct(blocks) {
        assert n !in before;
        assert forall e :: e in Fresh(known, before) ==> e.number != n;
      }
    }
  }

  /** Saving gaps never touches an existing entry, adds exactly the unknown numbers as fresh
      entries, and keeps numbers unique because gap detection lists no number twice. */
  lemma AddMissingKeeps(l: seq<Entry>, blocks: seq<nat>)
    ensures var l' := AddMissing(l, blocks);
            && l <= l'
            && Keys(l') == Keys(l) + Elems(blocks)
            && (forall e :: e in l' <==>
                e in l || (e.number in blocks && e.number !in Keys(l) && e == NewEntry(e.number)))
            && (UniqueKeys(l) && Distinct(blocks) ==> UniqueKeys(l'))
  {
    FreshMembers(Keys(l), blocks);
    var added := Fresh(Keys(l), blocks);
    forall n | n in blocks && n !in Keys(l) ensures NewEntry(n) in added {
    }
    if UniqueKeys(l) && Distinct(blocks) {
      forall i, j | 0 <= i < j < |l + added| ensures (l + added)[i].number != (l + added)[j].number {
        if i < |l| <= j {
          assert l[i].number in Keys(l) && added[j - |l|] in added;
        }
      }
    }
  }

  /** Detected gaps are safe to save: the ledger keeps one entry per number. */
  lemma SavingGapsKeepsUnique(l: seq<Entry>, blocks: seq<Block>)
    requires UniqueKeys(l)
    ensures UniqueKeys(AddMissing(l, DetectMissing(blocks)))
  {
    GapsArePartition(blocks);
    AddMissingKeeps(l, DetectMissing(blocks));
  }

  /** Saving a list of numbers keeps one entry per number exactly if every number that is repeated in
      the list is known already: saving only deduplicates against entries that were there before. */
  lemma SavingKeepsUniqueIff(l: seq<Entry>, blocks: seq<nat>)
    requires UniqueKeys(l)
    ensures UniqueKeys(AddMissing(l, blocks)) <==>
            (forall i, j :: 0 <= i < j < |blocks| && blocks[i] == blocks[j] ==> blocks[i] in Keys(l))
  {
    var known, added := Keys(l), Fresh(Keys(l), blocks);
    var all := l + added;
    FreshUniqueIff(known, blocks);
    FreshMembers(known, blocks);
    if UniqueKeys(added) {
      forall i, j | 0 <= i < j < |all| ensures all[i].number != all[j].number {
        if i < |l| <= j {
          assert l[i].number in known && added[j - |l|] in added;
        }
      }
    } else {
      var i, j :| 0 <= i < j < |added| && added[i].number == added[j].number;
      assert all[|l| + i].number == all[|l| + j].number;
    }
  }

  lemma {:induction false} FreshUniqueIff(known: set<nat>, blocks: seq<nat>)
    ensures UniqueKeys(Fresh(known, blocks)) <==>
            (forall i, j :: 0 <= i < j < |blocks| && blocks[i] == blocks[j] ==> blocks[i] in known)
  {
    if blocks != [] {
      var init, n := blocks[..|blocks| - 1], blocks[|blocks| - 1];
      var before := Fresh(known, init);
      FreshUniqueIff(known, init);
      FreshMembers(known, init);
      assert forall i :: 0 <= i < |init| ==> init[i] == blocks[i];
      if n !in known {
        assert n in init <==> NewEntry(n) in before;
        if n in init {
          var i :| 0 <= i < |init| && init[i] == n;
          assert blocks[i] == blocks[|init|];
          var k :| 0 <= k < |before| && before[k] == NewEntry(n);
          assert (before + [NewEntry(n)])[k].number == (before + [NewEntry(n)])[|before|].number;
        } else {
          UniqueSnoc(before, NewEntry(n));
        }
      }
    }
  }

  lemma UniqueSnoc(l: seq<Entry>, e: Entry)
    requires forall x :: x in l ==> x.number != e.number
    ensures UniqueKeys(l + [e]) <==> UniqueKeys(l)
  {
    assert forall i :: 0 <= i < |l| ==> (l + [e])[i] == l[i];
  }

  /** Migrating the legacy file yields one fresh entry per number that occurs on some line. */
  lemma {:induction false} MigrationIsUnique(lines: seq<string>)
    ensures UniqueKeys(Migrated(lines))
    ensures forall e :: e in Migrated(lines) ==> e == NewEntry(e.number)
    ensures forall n :: n in Keys(Migrated(lines)) <==>
            exists i :: 0 <= i < |lines| && Decimal.ParseU64(lines[i]) == Some(n)
  {
    hide *;
    if lines != [] {
      var init, last := lines[..|lines| - 1], lines[|lines| - 1];
      MigrationIsUnique(init);
      MigrationStep(lines);
      var before, parsed := Migrated(init), Decimal.ParseU64(last);
      if parsed.Some? && parsed.value !in Keys(before) {
        NewKeepsUnique(before, parsed.value);
      }
      assert lines == init + [last];
      SomeLine(init, last);
    } else {
      NothingMigrated();
    }
  }

  lemma NothingMigrated()
    ensures Migrated([]) == [] && UniqueKeys([])
  {
  }

  lemma NewKeepsUnique(l: seq<Entry>, n: nat)
    requires UniqueKeys(l) && n !in Keys(l)
    ensures UniqueKeys(l + [NewEntry(n)]) && NewEntry(n).number == n
    ensures forall e :: e in l + [NewEntry(n)] <==> e in l || e == NewEntry(n)
  {
    UniqueSnoc(l, NewEntry(n));
  }

  /** What the lines parse to. */
  lemma SomeLine(init: seq<string>, last: string)
    ensures forall n :: (exists i :: 0 <= i < |init + [last]| && Decimal.ParseU64((init + [last])[i]) == Some(n)) <==>
              || (exists i :: 0 <= i < |init| && Decimal.ParseU64(init[i]) == Some(n))
              || Decimal.ParseU64(last) == Some(n)
  {
    hide Decimal.ParseU64;
    var all := init + [last];
    assert all[|init|] == last && forall i :: 0 <= i < |init| ==> all[i] == init[i];
  }

  lemma MigrationStep(lines: seq<string>)
    requires lines != []
    ensures var before, parsed := Migrated(lines[..|lines| - 1]), Decimal.ParseU64(lines[|lines| - 1]);
            && Keys(Migrated(lines)) == Keys(before) + (if parsed.Some? then {parsed.value} else {})
            && Migrated(lines) == if parsed.Some? && parsed.value !in Keys(before)
              then before + [NewEntry(parsed.value)] else before
  {
    hide Decimal.ParseU64;
    var before, parsed := Migrated(lines[..|lines| - 1]), Decimal.ParseU64(lines[|lines| - 1]);
    if parsed.Some? && parsed.value !in Keys(before) {
      assert (before + [NewEntry(parsed.value)])[|before|] == NewEntry(parsed.value);
      assert forall e :: e in before + [NewEntry(parsed.value)] <==> e in before || e == NewEntry(parsed.value);
    }
  }
}
