/** The pre-queue index space: the open folds the ten shard counts into prefix
    offsets, and a stored `(shard, local index)` is reconstructed against them. */
module Cohort {
  import opened Common

  const SHARDS: nat := 10

  datatype CohortOffsets = CohortOffsets(offsets: seq<nat>, participantCount: nat)

  /** Whether a stored local index has a pre-queue index, or raced the open. */
  datatype Assignment = PreQueueIndex(index: nat) | LiveJoin

  /** The index space the ten counts describe: `offset[s]` is the sum of the
      counts before shard `s`, and the cohort size is the sum of all of them. */
  function Folded(counts: seq<nat>): CohortOffsets
    requires |counts| == SHARDS
  {
    CohortOffsets(seq(SHARDS, s requires 0 <= s < SHARDS => Sum(counts[..s])), Sum(counts))
  }

  /** The running prefix sum, refused when it leaves 64 bits. */
  method FromCounts(counts: seq<u64>) returns (r: Option<CohortOffsets>)
    requires |counts| == SHARDS
    ensures r.Some? <==> Sum(counts) <= U64_MAX
    ensures r.Some? ==> r.value == Folded(counts)
  {
    var offsets: seq<nat> := [];
    var running: nat := 0;
    var shard := 0;
    while shard < SHARDS
      invariant 0 <= shard <= SHARDS
      invariant |offsets| == shard
      invariant forall s :: 0 <= s < shard ==> offsets[s] == Sum(counts[..s])
      invariant running == Sum(counts[..shard]) <= U64_MAX
    {
      offsets := offsets + [running];
      SumSnoc(counts, shard);
      if running + counts[shard] > U64_MAX {
        SumPrefixes(counts, shard + 1, SHARDS);
        SumAll(counts);
        return None;
      }
      running := running + counts[shard];
      shard := shard + 1;
    }
    SumAll(counts);
    r := Some(CohortOffsets(offsets, running));
  }

  /** The number of local indices issued to a shard: the width up to the next
      shard's offset, or up to the cohort size for the last shard. */
  function ShardCount(c: CohortOffsets, shard: nat): Option<nat>
  {
    if shard >= |c.offsets| then None
    else
      var start := c.offsets[shard];
      var end := if shard + 1 < |c.offsets| then c.offsets[shard + 1] else c.participantCount;
      if end >= start then Some(end - start) else None
  }

  function Assign(c: CohortOffsets, shard: nat, localIndex: nat): Assignment
  {
    if shard >= |c.offsets| then LiveJoin
    else
      match ShardCount(c, shard)
      case None => LiveJoin
      case Some(count) =>
        if localIndex >= count then LiveJoin
        else if c.offsets[shard] + localIndex > U64_MAX then LiveJoin
        else PreQueueIndex(c.offsets[shard] + localIndex)
  }

  /** The fold and the reconstruction agree: a row is in the cohort exactly when
      its local index is below the count the open read for its own shard. */
  lemma AssignOfFold(counts: seq<nat>, shard: nat, l: nat)
    requires |counts| == SHARDS && Sum(counts) <= U64_MAX
    ensures Assign(Folded(counts), shard, l) ==
            if shard < SHARDS && l < counts[shard]
            then PreQueueIndex(Sum(counts[..shard]) + l) else LiveJoin
    ensures shard < SHARDS && l < counts[shard] ==> Sum(counts[..shard]) + l < Sum(counts)
  {
    if shard < SHARDS {
      SumSnoc(counts, shard);
      SumAll(counts);
      SumPrefixes(counts, shard + 1, SHARDS);
      assert shard + 1 < SHARDS ==> Folded(counts).offsets[shard + 1] == Sum(counts[..shard + 1]);
      assert shard + 1 == SHARDS ==> counts[..shard + 1] == counts;
      assert ShardCount(Folded(counts), shard) == Some(counts[shard]);
    }
  }

  /** Two rows with the same reconstructed index are the same row. */
  lemma AssignInjective(counts: seq<nat>, s: nat, l: nat, t: nat, m: nat)
    requires |counts| == SHARDS
    requires s < SHARDS && t < SHARDS && l < counts[s] && m < counts[t]
    requires Sum(counts[..s]) + l == Sum(counts[..t]) + m
    ensures s == t && l == m
  {
    if s < t {
      SumSnoc(counts, s);
      SumPrefixes(counts, s + 1, t);
    } else if t < s {
      SumSnoc(counts, t);
      SumPrefixes(counts, t + 1, s);
    }
  }

  /** Every index below the cohort size belongs to some row: the reconstructed
      indices are exactly the contiguous range the permutation is defined on. */
  lemma {:induction false} AssignOnto(counts: seq<nat>, k: nat, i: nat) returns (s: nat, l: nat)
    requires k <= |counts| && i < Sum(counts[..k])
    ensures s < k && l < counts[s] && Sum(counts[..s]) + l == i
  {
    assert k > 0;
    SumSnoc(counts, k - 1);
    if i < Sum(counts[..k - 1]) {
      s, l := AssignOnto(counts, k - 1, i);
    } else {
      s, l := k - 1, i - Sum(counts[..k - 1]);
    }
  }
}
