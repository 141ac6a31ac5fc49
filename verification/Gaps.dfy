/** Gap detection inside one batch of fetched blocks. A block is its number, if the node reported one. */
module Gaps {
  import opened Basics

  type Block = Option<nat>

  /** The numbers the node reported; blocks without one are passed over. */
  function Numbers(blocks: seq<Block>): (ns: set<nat>)
    ensures forall n :: n in ns <==> Some(n) in blocks
  {
    set b | b in blocks && b.Some? :: b.value
  }

  function MissingBetween(lo: nat, hi: nat, have: set<nat>): (r: seq<nat>)
    ensures Ascending(r)
    ensures forall n :: n in r <==> lo <= n <= hi && n !in have
    decreases hi + 1 - lo
  {
    if hi < lo then []
    else
      var rest := MissingBetween(lo + 1, hi, have);
      if lo in have then rest
      else
        assert forall i :: 0 <= i < |rest| ==> rest[i] in rest;
        [lo] + rest
  }

  function DetectMissing(blocks: seq<Block>): seq<nat> {
    var fetched := Numbers(blocks);
    if fetched == {} then [] else MissingBetween(MinOf(fetched), MaxOf(fetched), fetched)
  }

  /** The gaps are listed in ascending order; with the fetched numbers they partition the interval
      from the least to the greatest fetched number, so their count is determined. */
  lemma GapsArePartition(blocks: seq<Block>)
    ensures var fetched, gaps := Numbers(blocks), DetectMissing(blocks);
            && Ascending(gaps)
            && Elems(gaps) !! fetched
            && (fetched == {} ==> gaps == [])
            && (fetched != {} ==>
                  && Elems(gaps) + fetched == Elems(Range(MinOf(fetched), MaxOf(fetched) + 1))
                  && |gaps| == MaxOf(fetched) - MinOf(fetched) + 1 - |fetched|)
  {
    var fetched, gaps := Numbers(blocks), DetectMissing(blocks);
    if fetched != {} {
      var whole := Range(MinOf(fetched), MaxOf(fetched) + 1);
      ElemsRange(MinOf(fetched), MaxOf(fetched) + 1);
      DistinctCard(whole);
      DistinctCard(gaps);
      assert |Elems(gaps) + fetched| == |Elems(gaps)| + |fetched|;
    }
  }

  /** In particular the gaps lie strictly between two fetched numbers. */
  lemma GapsAreBracketed(blocks: seq<Block>, n: nat)
    ensures n in DetectMissing(blocks)
      <==> Some(n) !in blocks && (exists a, b :: Some(a) in blocks && Some(b) in blocks && a < n < b)
  {
    var fetched := Numbers(blocks);
    if n in DetectMissing(blocks) {
      assert Some(MinOf(fetched)) in blocks && Some(MaxOf(fetched)) in blocks;
      assert MinOf(fetched) < n < MaxOf(fetched);
    }
    if a, b :| Some(a) in blocks && Some(b) in blocks && a < n < b && Some(n) !in blocks {
      assert a in fetched && b in fetched;
    }
  }

  lemma NoGapInOne(n: nat)
    ensures DetectMissing([Some(n)]) == []
  {
    assert Numbers([Some(n)]) == {n};
    GapsArePartition([Some(n)]);
  }
}
