/** Token texts, scores and merge rules by identifier. */
module Vocabulary {
  import opened Prelude

  /** The last place of s among the first n items, or -1: later duplicates win. */
  function LastIndex(items: seq<seq<char>>, s: seq<char>, n: nat): (id: int)
    requires n <= |items|
    ensures -1 <= id < n
  {
    if n == 0 then -1 else if items[n - 1] == s then n - 1 else LastIndex(items, s, n - 1)
  }

  lemma {:induction false} LastIndexFinds(items: seq<seq<char>>, s: seq<char>, n: nat)
    requires n <= |items|
    ensures var id := LastIndex(items, s, n);
            (id >= 0 ==> items[id] == s) && forall i | Max(0, id + 1) <= i < n :: items[i] != s
  {
    if n > 0 {
      LastIndexFinds(items, s, n - 1);
    }
  }

  /** id is the last place of s. */
  ghost predicate IsLast(items: seq<seq<char>>, s: seq<char>, id: int) {
    0 <= id < |items| && items[id] == s && forall i | id < i < |items| :: items[i] != s
  }

  datatype Vocab = Vocab(values: seq<seq<char>>, scores: seq<real>, merges: seq<seq<char>>) {
    predicate Valid() {
      |values| == |scores|
    }

    function Encode(s: seq<char>): (id: int)
      ensures -1 <= id < |values|
    {
      LastIndex(values, s, |values|)
    }

    function Decode(id: int): seq<char>
      requires 0 <= id < |values|
    {
      values[id]
    }

    lemma EncodeFinds(s: seq<char>)
      ensures Encode(s) >= 0 <==> s in values
      ensures Encode(s) >= 0 ==> Decode(Encode(s)) == s
      ensures forall id | id >= 0 :: Encode(s) == id <==> IsLast(values, s, id)
    {
      LastIndexFinds(values, s, |values|);
    }

    /** The rank of the rule that merges left and right, or -1. */
    function Merge(left: seq<char>, right: seq<char>): (rank: int)
      ensures -1 <= rank < |merges|
    {
      LastIndex(merges, left + " " + right, |merges|)
    }

    /** A later rule for the same pair wins. */
    lemma MergeFinds(left: seq<char>, right: seq<char>)
      ensures Merge(left, right) >= 0 <==> left + " " + right in merges
      ensures forall rank | rank >= 0 :: Merge(left, right) == rank <==> IsLast(merges, left + " " + right, rank)
    {
      LastIndexFinds(merges, left + " " + right, |merges|);
    }
  }
}
