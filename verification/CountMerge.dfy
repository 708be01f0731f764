/** `SyncLoadCenter`: the merge of the ranks' count files, which saturates at the largest int. */
module CountMerge {
  import opened Arith

  /** One file's count added to the running count. */
  function SaturatingAdd(count: int, part: int): int {
    if part >= 0 && count <= MAX_SIZE - part then count + part else MAX_SIZE
  }

  function SumOf(parts: seq<int>): int {
    if parts == [] then 0 else SumOf(parts[..|parts| - 1]) + parts[|parts| - 1]
  }

  ghost predicate NonNegative(parts: seq<int>) {
    forall i | 0 <= i < |parts| :: parts[i] >= 0
  }

  lemma {:induction false} SumNonNegative(parts: seq<int>)
    requires NonNegative(parts)
    ensures SumOf(parts) >= 0
  {
    if parts != [] {
      SumNonNegative(parts[..|parts| - 1]);
    }
  }

  /** The count after the first i files. */
  ghost predicate MergedTo(count: int, parts: seq<int>, i: nat)
    requires i <= |parts|
  {
    count == if NonNegative(parts[..i]) then Least(SumOf(parts[..i]), MAX_SIZE) else MAX_SIZE
  }

  lemma {:induction false} MergeStep(count: int, parts: seq<int>, i: nat)
    requires i < |parts| && MergedTo(count, parts, i)
    ensures MergedTo(SaturatingAdd(count, parts[i]), parts, i + 1)
  {
    assert parts[..i + 1][..i] == parts[..i];
    assert NonNegative(parts[..i + 1]) <==> NonNegative(parts[..i]) && parts[i] >= 0;
    if NonNegative(parts[..i]) {
      SumNonNegative(parts[..i]);
    }
  }

  /** The merged count is the exact sum, cut off at the largest int; any negative file count gives that bound. */
  method MergeCounts(parts: seq<int>) returns (count: int)
    ensures count == if NonNegative(parts) then Least(SumOf(parts), MAX_SIZE) else MAX_SIZE
  {
    count := 0;
    var i := 0;
    while i < |parts|
      invariant 0 <= i <= |parts| && MergedTo(count, parts, i)
    {
      MergeStep(count, parts, i);
      count := SaturatingAdd(count, parts[i]);
      i := i + 1;
    }
    assert parts[..i] == parts;
  }
}
