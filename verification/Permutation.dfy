/** The seeded permutation of `[0, N)`: a four-round balanced Feistel network over
    the smallest power-of-four domain that holds the cohort, walked along its
    cycle until it lands inside the cohort. The keyed MAC is a parameter: every
    result here holds whatever word it returns for a round and a half. */
module Permutation {
  import opened Common

  /** The keyed round word: HMAC-SHA256(seed, round || half) read as an integer. */
  type Mac = (nat, nat) -> nat

  const ROUNDS: nat := 4

  function Pow2(k: nat): (p: nat)
    ensures p >= 1
  {
    if k == 0 then 1 else 2 * Pow2(k - 1)
  }

  /** Bitwise exclusive or. */
  function Xor(a: nat, b: nat): nat
    decreases a + b
  {
    if a == 0 && b == 0 then 0 else 2 * Xor(a / 2, b / 2) + (a % 2 + b % 2) % 2
  }

  lemma XorHalves(a: nat, b: nat)
    ensures Xor(a, b) / 2 == Xor(a / 2, b / 2)
    ensures Xor(a, b) % 2 == if a % 2 == b % 2 then 0 else 1
  {
  }

  lemma ParityAndHalf(a: nat, b: nat)
    requires a / 2 == b / 2 && a % 2 == b % 2
    ensures a == b
  {
  }

  lemma {:induction false} XorCancels(a: nat, b: nat)
    ensures Xor(Xor(a, b), b) == a
    decreases a + b
  {
    if a != 0 || b != 0 {
      XorCancels(a / 2, b / 2);
      XorHalves(a, b);
      XorHalves(Xor(a, b), b);
      ParityAndHalf(Xor(Xor(a, b), b), a);
    }
  }

  lemma {:induction false} XorStaysBelow(a: nat, b: nat, k: nat)
    requires a < Pow2(k) && b < Pow2(k)
    ensures Xor(a, b) < Pow2(k)
  {
    if k > 0 && (a != 0 || b != 0) {
      XorStaysBelow(a / 2, b / 2, k - 1);
    }
  }

  lemma {:induction false} PowMonotone(j: nat, k: nat)
    requires j <= k
    ensures Pow2(j) <= Pow2(k)
    decreases k - j
  {
    if j < k {
      PowMonotone(j, k - 1);
    }
  }

  // ---- The domain ----------------------------------------------------------

  function BitLength(m: nat): nat { if m == 0 then 0 else 1 + BitLength(m / 2) }

  lemma {:induction false} BitLengthBounds(m: nat)
    requires m > 0
    ensures BitLength(m) > 0 && Pow2(BitLength(m) - 1) <= m < Pow2(BitLength(m))
  {
    if m > 1 {
      BitLengthBounds(m / 2);
    } else {
      assert BitLength(m) == 1 + BitLength(0);
    }
  }

  function HalfWidth(n: nat): nat
    requires n >= 2
  {
    (BitLength(n - 1) + 1) / 2
  }

  function Domain(b: nat): nat { Pow2(2 * b) }

  /** The domain is the smallest power of four that holds the cohort, and is
      less than four times the cohort, which is what bounds the walk. */
  lemma DomainFits(n: nat)
    requires n >= 2
    ensures var b := HalfWidth(n); b >= 1 && n <= Domain(b) < 4 * n && Domain(b - 1) < n
    ensures forall c: nat :: n <= Domain(c) ==> HalfWidth(n) <= c
  {
    var b := HalfWidth(n);
    var bits := BitLength(n - 1);
    BitLengthBounds(n - 1);
    PowMonotone(bits, 2 * b);
    PowMonotone(2 * (b - 1), bits - 1);
    assert Pow2(2 * b) == 2 * (2 * Pow2(2 * (b - 1)));
    forall c: nat | n <= Domain(c)
      ensures b <= c
    {
      if c < b {
        PowMonotone(2 * c, 2 * (b - 1));
      }
    }
  }

  // ---- The Feistel network -------------------------------------------------

  /** `v >> b`. */
  function Shr(v: nat, b: nat): nat { if b == 0 then v else Shr(v / 2, b - 1) }

  /** `v & (2^b - 1)`. */
  function Low(v: nat, b: nat): nat { if b == 0 then 0 else v % 2 + 2 * Low(v / 2, b - 1) }

  /** `(h << b) | l`, for `l` of at most `b` bits. */
  function Join(h: nat, l: nat, b: nat): nat { if b == 0 then h else l % 2 + 2 * Join(h, l / 2, b - 1) }

  lemma {:induction false} JoinOfSplit(v: nat, b: nat)
    ensures Join(Shr(v, b), Low(v, b), b) == v
  {
    if b > 0 {
      JoinOfSplit(v / 2, b - 1);
      assert Low(v, b) % 2 == v % 2 && Low(v, b) / 2 == Low(v / 2, b - 1);
    }
  }

  lemma {:induction false} SplitOfJoin(h: nat, l: nat, b: nat)
    requires l < Pow2(b)
    ensures Shr(Join(h, l, b), b) == h && Low(Join(h, l, b), b) == l
  {
    if b > 0 {
      SplitOfJoin(h, l / 2, b - 1);
      assert Join(h, l, b) % 2 == l % 2 && Join(h, l, b) / 2 == Join(h, l / 2, b - 1);
    }
  }

  lemma {:induction false} LowBelow(v: nat, b: nat)
    ensures Low(v, b) < Pow2(b)
  {
    if b > 0 {
      LowBelow(v / 2, b - 1);
    }
  }

  lemma {:induction false} ShrBelow(v: nat, b: nat, k: nat)
    requires v < Pow2(k + b)
    ensures Shr(v, b) < Pow2(k)
  {
    if b > 0 {
      ShrBelow(v / 2, b - 1, k);
    }
  }

  lemma {:induction false} JoinBelow(h: nat, l: nat, b: nat, k: nat)
    requires h < Pow2(k)
    ensures Join(h, l, b) < Pow2(k + b)
  {
    if b > 0 {
      JoinBelow(h, l / 2, b - 1, k);
    }
  }

  function RoundWord(mac: Mac, b: nat, round: nat, x: nat): (w: nat)
    ensures w < Pow2(b)
  {
    LowBelow(mac(round, x), b);
    Low(mac(round, x), b)
  }

  /** The rounds from `round` on, over the halves `left` and `right`. */
  function Feistel(mac: Mac, b: nat, round: nat, left: nat, right: nat): (nat, nat)
    requires round <= ROUNDS
    decreases ROUNDS - round
  {
    if round == ROUNDS then (left, right)
    else Feistel(mac, b, round + 1, right, Xor(left, RoundWord(mac, b, round, right)))
  }

  /** The whole network on a value of the `2b`-bit domain. */
  function Enc(mac: Mac, b: nat, v: nat): nat
  {
    var halves := Feistel(mac, b, 0, Shr(v, b), Low(v, b));
    Join(halves.0, halves.1, b)
  }

  method EncLoop(mac: Mac, b: nat, v: nat) returns (r: nat)
    ensures r == Enc(mac, b, v)
  {
    var left, right := Shr(v, b), Low(v, b);
    var round := 0;
    while round < ROUNDS
      invariant 0 <= round <= ROUNDS
      invariant Feistel(mac, b, round, left, right) == Feistel(mac, b, 0, Shr(v, b), Low(v, b))
    {
      left, right := right, Xor(left, RoundWord(mac, b, round, right));
      round := round + 1;
    }
    r := Join(left, right, b);
  }

  lemma {:induction false} FeistelBelow(mac: Mac, b: nat, round: nat, left: nat, right: nat)
    requires round <= ROUNDS && left < Pow2(b) && right < Pow2(b)
    ensures Feistel(mac, b, round, left, right).0 < Pow2(b)
    ensures Feistel(mac, b, round, left, right).1 < Pow2(b)
    decreases ROUNDS - round
  {
    if round < ROUNDS {
      XorStaysBelow(left, RoundWord(mac, b, round, right), b);
      FeistelBelow(mac, b, round + 1, right, Xor(left, RoundWord(mac, b, round, right)));
    }
  }

  lemma {:induction false} FeistelInjective(mac: Mac, b: nat, round: nat, l: nat, r: nat, l': nat, r': nat)
    requires round <= ROUNDS
    requires Feistel(mac, b, round, l, r) == Feistel(mac, b, round, l', r')
    ensures l == l' && r == r'
    decreases ROUNDS - round
  {
    if round < ROUNDS {
      var f, f' := RoundWord(mac, b, round, r), RoundWord(mac, b, round, r');
      FeistelInjective(mac, b, round + 1, r, Xor(l, f), r', Xor(l', f'));
      XorCancels(l, f);
      XorCancels(l', f');
    }
  }

  lemma HalvesBelow(b: nat, v: nat)
    requires v < Domain(b)
    ensures Shr(v, b) < Pow2(b) && Low(v, b) < Pow2(b)
  {
    assert 2 * b == b + b;
    ShrBelow(v, b, b);
    LowBelow(v, b);
  }

  lemma EncBelow(mac: Mac, b: nat, v: nat)
    requires v < Domain(b)
    ensures Enc(mac, b, v) < Domain(b)
  {
    HalvesBelow(b, v);
    FeistelBelow(mac, b, 0, Shr(v, b), Low(v, b));
    var h := Feistel(mac, b, 0, Shr(v, b), Low(v, b));
    JoinBelow(h.0, h.1, b, b);
    assert 2 * b == b + b;
  }

  lemma EncInjective(mac: Mac, b: nat, v: nat, w: nat)
    requires v < Domain(b) && w < Domain(b) && Enc(mac, b, v) == Enc(mac, b, w)
    ensures v == w
  {
    HalvesBelow(b, v);
    HalvesBelow(b, w);
    FeistelBelow(mac, b, 0, Shr(v, b), Low(v, b));
    FeistelBelow(mac, b, 0, Shr(w, b), Low(w, b));
    var h, k := Feistel(mac, b, 0, Shr(v, b), Low(v, b)), Feistel(mac, b, 0, Shr(w, b), Low(w, b));
    SplitOfJoin(h.0, h.1, b);
    SplitOfJoin(k.0, k.1, b);
    FeistelInjective(mac, b, 0, Shr(v, b), Low(v, b), Shr(w, b), Low(w, b));
    JoinOfSplit(v, b);
    JoinOfSplit(w, b);
  }

  // ---- The cycle walk ------------------------------------------------------

  /** A walk that started inside the cohort and has not re-entered it. */
  ghost predicate Walking(mac: Mac, b: nat, n: nat, path: seq<nat>)
  {
    && path != []
    && path[0] < n <= Domain(b)
    && (forall j :: 0 <= j < |path| ==> path[j] < Domain(b))
    && (forall j :: 1 <= j < |path| ==> n <= path[j] && path[j] == Enc(mac, b, path[j - 1]))
  }

  lemma {:induction false} WalkRepeatsNothing(mac: Mac, b: nat, n: nat, path: seq<nat>, i: nat, j: nat)
    requires Walking(mac, b, n, path)
    requires i < j < |path|
    ensures path[i] != path[j]
    decreases i
  {
    if path[i] == path[j] && i > 0 {
      EncInjective(mac, b, path[i - 1], path[j - 1]);
      WalkRepeatsNothing(mac, b, n, path, i - 1, j - 1);
    }
  }

  /** A walk is never longer than the domain, so it must re-enter the cohort. */
  lemma WalkIsShort(mac: Mac, b: nat, n: nat, path: seq<nat>)
    requires Walking(mac, b, n, path)
    ensures |path| <= Domain(b)
  {
    forall i, j | 0 <= i < j < |path|
      ensures path[i] != path[j]
    {
      WalkRepeatsNothing(mac, b, n, path, i, j);
    }
    DistinctBelow(path, Domain(b));
  }

  lemma WalkOn(mac: Mac, b: nat, n: nat, path: seq<nat>)
    requires Walking(mac, b, n, path)
    ensures var next := Enc(mac, b, path[|path| - 1]);
            next < Domain(b) &&
            (next >= n ==> Walking(mac, b, n, path + [next]) && |path| < Domain(b))
  {
    EncBelow(mac, b, path[|path| - 1]);
    var next := Enc(mac, b, path[|path| - 1]);
    if next >= n {
      WalkIsShort(mac, b, n, path + [next]);
    }
  }

  /** The complete walk from a value inside the cohort up to, but not including,
      its re-entry. */
  ghost function Walk(mac: Mac, b: nat, n: nat, path: seq<nat>): (full: seq<nat>)
    requires Walking(mac, b, n, path)
    ensures Walking(mac, b, n, full) && full[0] == path[0]
    ensures Enc(mac, b, full[|full| - 1]) < n
    decreases Domain(b) - |path|
  {
    WalkOn(mac, b, n, path);
    var next := Enc(mac, b, path[|path| - 1]);
    if next < n then path
    else Walk(mac, b, n, path + [next])
  }

  /** The position of registration index `i` in a cohort of `n`. */
  ghost function Prp(mac: Mac, i: nat, n: nat): (v: nat)
    ensures i < n ==> v < n
    ensures i >= n ==> v == i
  {
    if n <= 1 || i >= n then i
    else
      DomainFits(n);
      var full := Walk(mac, HalfWidth(n), n, [i]);
      Enc(mac, HalfWidth(n), full[|full| - 1])
  }

  /** The loop that computes it; that it ends is what the walk lemmas are for. */
  method PrpLoop(mac: Mac, i: nat, n: nat) returns (v: nat)
    ensures v == Prp(mac, i, n)
  {
    if n <= 1 || i >= n {
      return i;
    }
    var b := HalfWidth(n);
    DomainFits(n);
    ghost var path := [i];
    v := EncLoop(mac, b, i);
    while v >= n
      invariant Walking(mac, b, n, path)
      invariant v == Enc(mac, b, path[|path| - 1])
      invariant Walk(mac, b, n, path) == Walk(mac, b, n, [i])
      decreases Domain(b) - |path|
    {
      WalkOn(mac, b, n, path);
      path := path + [v];
      v := EncLoop(mac, b, v);
    }
    assert Walk(mac, b, n, path) == path;
  }

  /** Two walks that end on the same value are the same walk: stepping back along
      both, the shorter would begin in the middle of the longer, which never
      touches the cohort after its first step. */
  lemma {:induction false} WalksMerge(mac: Mac, b: nat, n: nat, p: seq<nat>, q: seq<nat>)
    requires Walking(mac, b, n, p) && Walking(mac, b, n, q)
    requires p[|p| - 1] == q[|q| - 1]
    ensures p[0] == q[0]
    decreases |p|
  {
    if |p| > 1 && |q| > 1 {
      var p', q' := p[..|p| - 1], q[..|q| - 1];
      assert Enc(mac, b, p'[|p'| - 1]) == Enc(mac, b, q'[|q'| - 1]);
      EncInjective(mac, b, p'[|p'| - 1], q'[|q'| - 1]);
      WalksMerge(mac, b, n, p', q');
    }
  }

  /** Different registration indices get different positions, for every MAC. */
  lemma PrpInjective(mac: Mac, i: nat, j: nat, n: nat)
    requires i < n && j < n && Prp(mac, i, n) == Prp(mac, j, n)
    ensures i == j
  {
    if n > 1 {
      var b := HalfWidth(n);
      DomainFits(n);
      var p, q := Walk(mac, b, n, [i]), Walk(mac, b, n, [j]);
      EncInjective(mac, b, p[|p| - 1], q[|q| - 1]);
      WalksMerge(mac, b, n, p, q);
    }
  }

  /** A table that lists every position below `n` exactly once. */
  ghost predicate IsPermutation(perm: seq<nat>, n: nat)
  {
    && |perm| == n
    && (forall i :: 0 <= i < n ==> perm[i] < n)
    && Distinct(perm)
  }

  /** Every position below `n` is held by some registration index. */
  lemma PrpOnto(mac: Mac, n: nat, v: nat) returns (i: nat)
    requires v < n
    ensures i < n && Prp(mac, i, n) == v
  {
    var perm := seq(n, k requires 0 <= k < n => Prp(mac, k, n));
    PrpPermutes(mac, n, perm);
    DistinctFills(perm, n, v);
    i :| 0 <= i < n && perm[i] == v;
  }

  lemma PrpPermutes(mac: Mac, n: nat, perm: seq<nat>)
    requires |perm| == n && forall k :: 0 <= k < n ==> perm[k] == Prp(mac, k, n)
    ensures IsPermutation(perm, n)
  {
    forall i, j | 0 <= i < j < n
      ensures perm[i] != perm[j]
    {
      if perm[i] == perm[j] {
        PrpInjective(mac, i, j, n);
      }
    }
  }

  // ---- What the network computes -------------------------------------------

  lemma Distribute(d: nat, q: nat, k: nat)
    ensures d * (q + k) == d * q + d * k && (k > 0 ==> d * k >= d)
  {
  }

  lemma NoLarger(d: nat, q: nat, r: nat, q': nat, r': nat)
    requires d * q + r == d * q' + r' && r < d
    ensures q' <= q
  {
    if q < q' {
      Distribute(d, q, q' - q);
    }
  }

  lemma QuotientIs(v: nat, d: nat, q: nat, r: nat)
    requires v == d * q + r && r < d
    ensures v / d == q && v % d == r
  {
    assert v == d * (v / d) + v % d;
    NoLarger(d, q, r, v / d, v % d);
    NoLarger(d, v / d, v % d, q, r);
  }

  lemma HalfOfQuotient(v: nat, p: nat)
    requires p >= 1
    ensures v / 2 / p == v / (2 * p) && v % 2 + 2 * (v / 2 % p) == v % (2 * p)
  {
    var half := v / 2;
    var q, r := half / p, half % p;
    assert half == p * q + r;
    assert v == 2 * half + v % 2;
    Associate2(p, q);
    QuotientIs(v, 2 * p, q, v % 2 + 2 * r);
  }

  lemma Associate2(p: nat, q: nat)
    ensures 2 * (p * q) == (2 * p) * q
  {
  }

  lemma {:induction false} SplitIsDivision(v: nat, b: nat)
    ensures Shr(v, b) == v / Pow2(b) && Low(v, b) == v % Pow2(b)
  {
    if b > 0 {
      SplitIsDivision(v / 2, b - 1);
      HalfOfQuotient(v, Pow2(b - 1));
    }
  }

  lemma {:induction false} JoinIsSum(h: nat, l: nat, b: nat)
    requires l < Pow2(b)
    ensures Join(h, l, b) == h * Pow2(b) + l
  {
    if b > 0 {
      JoinIsSum(h, l / 2, b - 1);
      assert 2 * (h * Pow2(b - 1)) == h * (2 * Pow2(b - 1));
    }
  }

  /** The network in plain arithmetic: the two halves of `v`, and one more for each
      of the four rounds, each the exclusive or of the half two before it with the
      masked word of the round and of the half before it; the last two make `r`. */
  ghost predicate FourRounds(mac: Mac, b: nat, v: nat, h: seq<nat>, r: nat)
  {
    && |h| == 6 && h[0] == v / Pow2(b) && h[1] == v % Pow2(b)
    && h[2] == Xor(h[0], mac(0, h[1]) % Pow2(b))
    && h[3] == Xor(h[1], mac(1, h[2]) % Pow2(b))
    && h[4] == Xor(h[2], mac(2, h[3]) % Pow2(b))
    && h[5] == Xor(h[3], mac(3, h[4]) % Pow2(b))
    && r == h[4] * Pow2(b) + h[5]
  }

  ghost predicate Rounds(mac: Mac, b: nat, v: nat, r: nat)
  {
    exists h :: FourRounds(mac, b, v, h, r)
  }

  /** The network computes exactly its four rounds, whatever the MAC. */
  lemma NetworkIsFourRounds(mac: Mac, b: nat, v: nat) returns (h: seq<nat>)
    requires v < Pow2(2 * b)
    ensures FourRounds(mac, b, v, h, Enc(mac, b, v))
  {
    var h0, h1 := Shr(v, b), Low(v, b);
    var h2 := Xor(h0, RoundWord(mac, b, 0, h1));
    var h3 := Xor(h1, RoundWord(mac, b, 1, h2));
    var h4 := Xor(h2, RoundWord(mac, b, 2, h3));
    var h5 := Xor(h3, RoundWord(mac, b, 3, h4));
    h := [h0, h1, h2, h3, h4, h5];
    Unrolled(mac, b, h0, h1, h2, h3, h4, h5);
    HalvesBelow(b, v);
    FeistelBelow(mac, b, 0, h0, h1);
    JoinIsSum(h4, h5, b);
    SplitIsDivision(v, b);
    SplitIsDivision(mac(0, h1), b);
    SplitIsDivision(mac(1, h2), b);
    SplitIsDivision(mac(2, h3), b);
    SplitIsDivision(mac(3, h4), b);
  }

  lemma Unrolled(mac: Mac, b: nat, h0: nat, h1: nat, h2: nat, h3: nat, h4: nat, h5: nat)
    requires h2 == Xor(h0, RoundWord(mac, b, 0, h1)) && h3 == Xor(h1, RoundWord(mac, b, 1, h2))
    requires h4 == Xor(h2, RoundWord(mac, b, 2, h3)) && h5 == Xor(h3, RoundWord(mac, b, 3, h4))
    ensures Feistel(mac, b, 0, h0, h1) == (h4, h5)
  {
    assert Feistel(mac, b, 4, h4, h5) == (h4, h5);
    assert Feistel(mac, b, 3, h3, h4) == (h4, h5);
    assert Feistel(mac, b, 2, h2, h3) == (h4, h5);
    assert Feistel(mac, b, 1, h1, h2) == (h4, h5);
  }

  /** The walk of an index: rounds upon rounds over the smallest domain of a power
      of four, until a value falls below `n` again. */
  ghost predicate WalksTo(mac: Mac, b: nat, n: nat, walk: seq<nat>)
  {
    && |walk| >= 2 && walk[|walk| - 1] < n
    && (forall j :: 0 < j < |walk| - 1 ==> walk[j] >= n)
    && (forall j :: 0 < j < |walk| ==> Rounds(mac, b, walk[j - 1], walk[j]))
  }

  /** The position of an index is where its walk first re-enters the cohort. */
  lemma PositionIsFirstBelow(mac: Mac, i: nat, n: nat) returns (b: nat, walk: seq<nat>)
    requires 2 <= n && i < n
    ensures b >= 1 && Pow2(2 * (b - 1)) < n <= Pow2(2 * b)
    ensures walk != [] && walk[0] == i && WalksTo(mac, b, n, walk) && Prp(mac, i, n) == walk[|walk| - 1]
  {
    hide Pow2, FourRounds, Enc, HalfWidth, Rounds;
    b := HalfWidth(n);
    DomainFits(n);
    var path := Walk(mac, b, n, [i]);
    walk := path + [Enc(mac, b, path[|path| - 1])];
    forall j | 0 < j < |walk|
      ensures Rounds(mac, b, walk[j - 1], walk[j])
    {
      OneRound(mac, b, walk[j - 1]);
    }
  }

  lemma OneRound(mac: Mac, b: nat, v: nat)
    requires v < Domain(b)
    ensures Rounds(mac, b, v, Enc(mac, b, v))
  {
    hide FourRounds, Enc, Pow2;
    var h := NetworkIsFourRounds(mac, b, v);
  }

  /** The draw depends on the seed: two MACs that put index 0 of four in different
      places. */
  lemma SeedMatters()
    ensures Prp((round, x) => 0, 0, 4) == 0
    ensures Prp((round, x) => if round == 0 then 1 else 0, 0, 4) == 2
  {
    var still: Mac, moved: Mac := (round, x) => 0, (round, x) => if round == 0 then 1 else 0;
    SmallRounds(still, 0);
    SmallRounds(moved, 1);
  }

  lemma SmallRounds(mac: Mac, word: nat)
    requires word < 2 && mac(0, 0) == word && forall k, x :: k > 0 ==> mac(k, x) == 0
    ensures Prp(mac, 0, 4) == 2 * word
  {
    hide Pow2, Rounds, Prp;
    var b, walk := PositionIsFirstBelow(mac, 0, 4);
    HalfOfFour(b);
    RoundOfZero(mac, word, walk[1]);
  }

  lemma HalfOfFour(b: nat)
    requires b >= 1 && Pow2(2 * (b - 1)) < 4 <= Pow2(2 * b)
    ensures b == 1
  {
    hide Pow2;
    FourAtLeast(2 * (b - 1));
  }

  lemma FourAtLeast(k: nat)
    ensures k >= 2 ==> Pow2(k) >= 4
  {
    assert Pow2(0) == 1 && Pow2(1) == 2 && Pow2(2) == 4;
    if k >= 2 {
      PowMonotone(2, k);
    }
  }

  lemma RoundOfZero(mac: Mac, word: nat, r: nat)
    requires word < 2 && mac(0, 0) == word && forall k, x :: k > 0 ==> mac(k, x) == 0
    requires Rounds(mac, 1, 0, r)
    ensures r == 2 * word
  {
    hide Xor;
    var h :| FourRounds(mac, 1, 0, h, r);
    assert Pow2(1) == 2 * Pow2(0) == 2;
    XorOfZero(word);
    XorOfZero(0);
  }

  lemma XorOfZero(a: nat)
    requires a < 2
    ensures Xor(a, 0) == a && Xor(0, a) == a
  {
    assert Xor(0, 0) == 0;
  }
}
