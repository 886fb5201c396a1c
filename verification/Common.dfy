/** Shared vocabulary: 64-bit unsigned integers with the source's saturating and
    checked operations, options and results, and the few facts about finite sets
    of naturals that the counting arguments need. */
module Common {

  const U64_MAX: nat := 0xFFFF_FFFF_FFFF_FFFF

  type u64 = n: nat | n <= U64_MAX

  datatype Option<+T> = None | Some(value: T)

  datatype Result<+T, +E> = Ok(value: T) | Err(error: E)

  function Min(a: int, b: int): int { if a <= b then a else b }

  function Max(a: int, b: int): int { if a >= b then a else b }

  function SatAdd(a: u64, b: u64): u64 { if a + b <= U64_MAX then a + b else U64_MAX }

  function SatSub(a: u64, b: u64): u64 { if a >= b then a - b else 0 }

  function SatMul(a: u64, b: u64): u64 { if a * b <= U64_MAX then a * b else U64_MAX }

  /** A stored number read back as a `u64`; one too wide to parse is `None`. */
  function ParseU64(n: nat): Option<u64> { if n <= U64_MAX then Some(n) else None }

  function GetOr<T>(o: Option<T>, default: T): T { if o.Some? then o.value else default }

  /** A counter as a reader parses it: one too wide for 64 bits reads as zero. */
  function ReadU64(n: nat): u64 { GetOr(ParseU64(n), 0) }

  function Sum(s: seq<nat>): nat
  {
    if s == [] then 0 else Sum(s[..|s| - 1]) + s[|s| - 1]
  }

  lemma {:induction false} SumUpdate(s: seq<nat>, i: nat, v: nat)
    requires i < |s|
    ensures Sum(s[i := v]) == Sum(s) - s[i] + v
  {
    var t := s[i := v];
    if i == |s| - 1 {
      assert t[..|t| - 1] == s[..|s| - 1];
    } else {
      assert t[..|t| - 1] == s[..|s| - 1][i := v];
      SumUpdate(s[..|s| - 1], i, v);
    }
  }

  lemma {:induction false} SumPrefixes(s: seq<nat>, i: nat, j: nat)
    requires i <= j <= |s|
    ensures Sum(s[..i]) <= Sum(s[..j])
  {
    if i < j {
      SumPrefixes(s, i, j - 1);
      SumSnoc(s, j - 1);
    }
  }

  lemma SumSnoc(s: seq<nat>, i: nat)
    requires i < |s|
    ensures Sum(s[..i + 1]) == Sum(s[..i]) + s[i]
  {
    assert s[..i + 1][..i] == s[..i];
  }

  lemma SumAll(s: seq<nat>)
    ensures Sum(s[..|s|]) == Sum(s)
  {
    assert s[..|s|] == s;
  }

  /** The set of naturals in `[lo, hi)`. */
  ghost function Range(lo: nat, hi: nat): (r: set<nat>)
    ensures forall p :: p in r <==> lo <= p < hi
    decreases hi
  {
    if lo < hi then Range(lo, hi - 1) + {hi - 1} else {}
  }

  lemma {:induction false} RangeSize(lo: nat, hi: nat)
    requires lo <= hi
    ensures |Range(lo, hi)| == hi - lo
    decreases hi - lo
  {
    if lo < hi {
      RangeSize(lo, hi - 1);
    }
  }

  lemma {:induction false} SubsetSize<T>(a: set<T>, b: set<T>)
    requires a <= b
    ensures |a| <= |b|
  {
    assert b == a + (b - a);
  }

  ghost predicate Distinct<T>(s: seq<T>)
  {
    forall i, j :: 0 <= i < j < |s| ==> s[i] != s[j]
  }

  ghost function Elements<T>(s: seq<T>): set<T>
  {
    set x | x in s
  }

  lemma {:induction false} DistinctSize<T>(s: seq<T>)
    requires Distinct(s)
    ensures |Elements(s)| == |s|
  {
    if s != [] {
      var t := s[..|s| - 1];
      DistinctSize(t);
      assert Elements(s) == Elements(t) + {s[|s| - 1]};
      assert s[|s| - 1] !in t;
    }
  }

  /** Pigeonhole: a sequence of distinct naturals below `m` has at most `m` entries. */
  lemma DistinctBelow(s: seq<nat>, m: nat)
    requires Distinct(s)
    requires forall i :: 0 <= i < |s| ==> s[i] < m
    ensures |s| <= m
  {
    DistinctSize(s);
    RangeSize(0, m);
    SubsetSize(Elements(s), Range(0, m));
  }

  /** `m` distinct naturals below `m` are all of them. */
  lemma DistinctFills(s: seq<nat>, m: nat, v: nat)
    requires Distinct(s) && |s| == m
    requires forall i :: 0 <= i < |s| ==> s[i] < m
    requires v < m
    ensures v in s
  {
    if v !in s {
      DistinctSize(s);
      RangeSize(0, m);
      assert v in Range(0, m) && v !in Elements(s);
      SubsetSize(Elements(s) + {v}, Range(0, m));
    }
  }
}
