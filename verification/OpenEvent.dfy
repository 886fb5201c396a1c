/** The open: one process reads the ten shard counts, folds them, and publishes the
    index space in one conditional write. */
module OpenEvent {
  import opened Common
  import opened Cohort
  import opened Permutation
  import opened QueueProtocol
  import opened QueueGuarantees
  import opened QueueStore

  datatype OpenResult = Opened(values: OpenValues) | AlreadyOpen

  /** The permutation a seed selects over a cohort of `n`. */
  method SelectedBy(mac: Mac, n: nat) returns (perm: seq<nat>)
    ensures IsPermutation(perm, n)
    ensures forall i :: 0 <= i < n ==> perm[i] == Prp(mac, i, n)
  {
    hide Prp, IsPermutation;
    perm := [];
    for i := 0 to n
      invariant |perm| == i
      invariant forall k :: 0 <= k < i ==> perm[k] == Prp(mac, k, n)
    {
      var v := PrpLoop(mac, i, n);
      perm := perm + [v];
    }
    PrpPermutes(mac, n, perm);
  }

  /** The values an open would publish, or nothing when the cohort size would leave
      64 bits. */
  method OpenValuesOf(counts: seq<u64>, mac: Mac) returns (r: Option<OpenValues>)
    requires |counts| == SHARDS
    ensures r.Some? <==> Sum(counts) <= U64_MAX
    ensures r.Some? ==> r.value.offsets == Folded(counts)
    ensures r.Some? ==> |r.value.perm| == Sum(counts) && IsPermutation(r.value.perm, Sum(counts))
    ensures r.Some? ==> forall i :: 0 <= i < Sum(counts) ==> r.value.perm[i] == Prp(mac, i, Sum(counts))
  {
    var folded := FromCounts(counts);
    if folded.None? {
      return None;
    }
    var offsets: seq<nat> := [];
    for shard := 0 to SHARDS
      invariant |offsets| == shard && forall s :: 0 <= s < shard ==> offsets[s] == folded.value.offsets[s]
    {
      offsets := offsets + [folded.value.offsets[shard]];
    }
    assert offsets == folded.value.offsets;
    var perm := SelectedBy(mac, folded.value.participantCount);
    r := Some(OpenValues(perm, CohortOffsets(offsets, folded.value.participantCount)));
  }

  /** Steps taken without a committing open, then more of the same. */
  lemma StillNotCommitted(w: World, run: seq<Step>, from: nat, mid: nat, me: nat)
    requires from <= mid <= |run| && NotBy(run[from..mid], me)
    ensures CommittedBy(w, run, from, me) <==> CommittedBy(w, run, mid, me)
  {
    forall k | from <= k < mid
      ensures run[k].actor != me
    {
      assert run[k] == run[from..mid][k - from];
    }
  }

  lemma CommitSurvives(w: World, run: seq<Step>, more: seq<Step>, from: nat, me: nat)
    requires from <= |run| && NotBy(more, me)
    ensures CommittedBy(w, run + more, from, me) <==> CommittedBy(w, run, from, me)
  {
    var longer := run + more;
    forall k | from <= k < |run|
      ensures CommitsOpenAt(w, longer, k) <==> CommitsOpenAt(w, run, k)
    {
      assert longer[..k] == run[..k] && longer[k] == run[k];
    }
    forall k | |run| <= k < |longer|
      ensures longer[k].actor != me
    {
      assert longer[k] == more[k - |run|];
    }
    if CommittedBy(w, run, from, me) {
      var k :| from <= k < |run| && run[k].actor == me && CommitsOpenAt(w, run, k);
      assert longer[k].actor == me && CommitsOpenAt(w, longer, k);
    }
  }

  /** Counts that fit their counters, and whose sum fits one. */
  predicate CountsFit(shards: seq<nat>)
  {
    (forall s :: 0 <= s < |shards| ==> shards[s] <= U64_MAX) && Sum(shards) <= U64_MAX
  }

  lemma {:induction false} SumBelow(a: seq<nat>, b: seq<nat>)
    requires |a| == |b| && forall i :: 0 <= i < |a| ==> a[i] <= b[i]
    ensures Sum(a) <= Sum(b)
  {
    if a != [] {
      SumBelow(a[..|a| - 1], b[..|b| - 1]);
    }
  }

  lemma TooWide(shards: seq<nat>)
    ensures (exists s :: 0 <= s < |shards| && shards[s] > U64_MAX) ==> !CountsFit(shards)
  {
  }

  lemma TooMany(counts: seq<nat>, shards: seq<nat>)
    requires BelowCounts(counts, shards)
    ensures CountsFit(shards) ==> Sum(counts) <= U64_MAX
  {
    SumBelow(counts, shards);
  }

  /** The write of values already folded, and when its guard refuses it, the look
      at whether the event is open. The write is the first call made: it commits
      exactly when it reaches an unopened event in pre-queue, and is answered `Opened`
      exactly when it commits and its reply arrives. */
  method WriteValues(store: Store, values: OpenValues, counts: seq<u64>) returns (r: Result<OpenResult, StoreError>)
    requires store.Valid()
    requires |counts| == SHARDS && BelowCounts(counts, store.world.shards) && Sum(counts) <= U64_MAX
    requires values.offsets == Folded(counts) && IsPermutation(values.perm, Sum(counts))
    modifies store
    ensures store.Valid() && store.Since()
    ensures var w := |old(store.log)|;
            && |store.log| == w + (if store.fates(w) == Answered && !OpenCommits(store.Saw(w)) then 2 else 1)
            && store.log[w].op == Update && |old(store.trace)| <= store.log[w].at <= |store.trace|
            && NotBy(store.trace[|old(store.trace)|..store.log[w].at], store.me)
            && (CommittedBy(store.start, store.trace, |old(store.trace)|, store.me) <==>
                  store.fates(w) != Unreached && OpenCommits(store.Saw(w)))
            && (r.Ok? && r.value.Opened? <==> store.fates(w) == Answered && OpenCommits(store.Saw(w)))
            && (r.Ok? && r.value.AlreadyOpen? <==>
                  && store.fates(w) == Answered && !OpenCommits(store.Saw(w))
                  && store.fates(w + 1) == Answered && store.SawBehind(w + 1).c.opening.Some?)
    ensures r.Ok? || CommittedBy(store.start, store.trace, |old(store.trace)|, store.me) ==> store.world.c.opening.Some?
    ensures r.Ok? && r.value.Opened? ==> r.value.values == values && store.world.c.opening == Some(values)
    ensures CommittedBy(store.start, store.trace, |old(store.trace)|, store.me) ==> old(store.world).c.opening.None?
  {
    hide Inv, Grows, Exec, Legal, Store.Valid, CommittedBy, IsPermutation, BelowCounts, Folded, Seen, SeenBehind,
         OpenCommits;
    store.OthersOnly();
    var write, committed := store.WriteOpen(values.perm, counts);
    ghost var wroteAt, afterWrite, calls := store.world, store.trace, store.log;
    assert afterWrite[|old(store.trace)|..calls[|old(store.log)|].at] == store.others(|old(store.log)|, old(store.world));
    if write.Err? {
      return Err(Backend);
    }
    if write.value {
      return Ok(Opened(values));
    }
    store.Stored();
    var already := store.IsAlreadyOpen();
    GrowsTrans(old(store.world), wroteAt, store.world);
    assert store.trace == afterWrite + store.trace[|afterWrite|..];
    CommitSurvives(store.start, afterWrite, store.trace[|afterWrite|..], |old(store.trace)|, store.me);
    SeenStays(store.start, afterWrite, calls, store.trace, store.log, store.lag, |old(store.log)|);
    assert store.trace[|old(store.trace)|..calls[|old(store.log)|].at] == afterWrite[|old(store.trace)|..calls[|old(store.log)|].at];
    r := if already == Ok(true) then Ok(AlreadyOpen) else Err(Backend);
  }

  /** The values an open publishes: the fold of the counts its first ten calls read,
      and the positions the seed selects. */
  ghost predicate PublishedFrom(store: Store, from: nat, mac: Mac, values: OpenValues)
    reads store
  {
    exists counts: seq<u64> ::
      && |counts| == SHARDS && CountsSeen(store.start, store.trace, store.log, from, counts)
      && values.offsets == Folded(counts) && |values.perm| == Sum(counts)
      && forall i :: 0 <= i < Sum(counts) ==> values.perm[i] == Prp(mac, i, Sum(counts))
  }

  /** One open. Ten reads of the shard counts, then, unless one of them failed or the
      counts leave 64 bits, the write, as call `w`. The write commits exactly when it
      reaches an unopened event in pre-queue. It is answered `Opened` exactly when
      its reply also arrives, and the event keeps what the answer says; so an error
      leaves a committed open behind exactly when that one reply is lost. Any other
      error, and an `AlreadyOpen`, wrote nothing; and a missing event is an error. */
  method OpenEvent(store: Store, mac: Mac) returns (r: Result<OpenResult, StoreError>)
    requires store.Valid()
    modifies store
    ensures store.Valid() && store.Since()
    ensures var w := |old(store.log)| + SHARDS;
            && (forall k :: |old(store.log)| <= k < |store.log| && k < w ==> store.log[k].op == GetShardCount)
            && (|store.log| <= w ==>
                  && r.Err? && NotBy(store.trace[|old(store.trace)|..], store.me)
                  && (!AllAnswered(store.fates, |old(store.log)|, |store.log|) || !CountsFit(store.world.shards)))
            && (|store.log| > w ==>
                  && |store.log| == w + (if store.fates(w) == Answered && !OpenCommits(store.Saw(w)) then 2 else 1)
                  && store.log[w].op == Update && |old(store.trace)| <= store.log[w].at <= |store.trace|
                  && NotBy(store.trace[|old(store.trace)|..store.log[w].at], store.me))
            && (r.Ok? && r.value.Opened? <==> |store.log| > w && store.fates(w) == Answered && OpenCommits(store.Saw(w)))
            && (r.Ok? && r.value.AlreadyOpen? <==>
                  && |store.log| > w && store.fates(w) == Answered && !OpenCommits(store.Saw(w))
                  && store.fates(w + 1) == Answered && store.SawBehind(w + 1).c.opening.Some?)
            && (CommittedBy(store.start, store.trace, |old(store.trace)|, store.me) <==>
                  |store.log| > w && store.fates(w) != Unreached && OpenCommits(store.Saw(w)))
            && (r.Err? && CommittedBy(store.start, store.trace, |old(store.trace)|, store.me) <==>
                  |store.log| > w && store.fates(w) == LostReply && OpenCommits(store.Saw(w)))
    ensures r.Ok? && r.value.Opened? ==>
              store.world.c.opening == Some(r.value.values) && PublishedFrom(store, |old(store.log)|, mac, r.value.values)
    ensures r.Ok? || CommittedBy(store.start, store.trace, |old(store.trace)|, store.me) ==> store.world.c.opening.Some? && store.world.seeded
    ensures CommittedBy(store.start, store.trace, |old(store.trace)|, store.me) ==> old(store.world).c.opening.None?
  {
    hide Inv, Grows, Exec, Legal, Store.Valid, CommittedBy, IsPermutation, BelowCounts, Folded, Seen, SeenBehind,
         CountsSeen, AllAnswered, CountsFit;
    var counts := store.ReadShardCounts();
    ghost var was, read, calls := store.world, store.trace, store.log;
    NotByNotCommitted(store.start, store.trace, |old(store.trace)|, store.me);
    TooWide(store.world.shards);
    if counts.Err? {
      return Err(Backend);
    }
    TooMany(counts.value, store.world.shards);
    var values := OpenValuesOf(counts.value, mac);
    if values.None? {
      return Err(Backend);
    }
    store.Stored();
    r := WriteValues(store, values.value, counts.value);
    store.Stored();
    OpenedIsSeeded(store.world);
    GrowsTrans(old(store.world), was, store.world);
    OpeningKept(old(store.world), was);
    assert store.trace[|old(store.trace)|..|read|] == read[|old(store.trace)|..];
    StillNotCommitted(store.start, store.trace, |old(store.trace)|, |read|, store.me);
    ghost var at := store.log[|calls|].at;
    assert store.trace[|old(store.trace)|..at] == read[|old(store.trace)|..] + store.trace[|read|..at];
    CountsStaySeen(store.start, read, calls, store.trace, store.log, |old(store.log)|, counts.value);
    if r.Ok? && r.value.Opened? {
      assert |values.value.perm| == Sum(counts.value);
      assert PublishedFrom(store, |old(store.log)|, mac, r.value.values);
    }
  }

  lemma CountsStaySeen(start: World, trace: seq<Step>, log: seq<Call>, trace': seq<Step>, log': seq<Call>,
                       from: nat, counts: seq<u64>)
    requires trace <= trace' && log <= log' && forall k :: 0 <= k < |log| ==> log[k].at <= |trace|
    requires from + |counts| <= |log| && CountsSeen(start, trace, log, from, counts)
    ensures CountsSeen(start, trace', log', from, counts)
  {
    forall k | from <= k < from + |counts|
      ensures CountIs(counts, k - from, Seen(start, trace', log', k).shards)
    {
      SeenStays(start, trace, log, trace', log', n => 0, k);
      assert CountIs(counts, k - from, Seen(start, trace, log, k).shards);
    }
  }

  lemma OpeningKept(w: World, w': World)
    requires Grows(w, w')
    ensures w'.c.opening.None? ==> w.c.opening.None?
  {
  }

  function NoOthers(): (nat, World) -> seq<Step> { (k, w) => [] }

  /** With no other process, a stretch of the trace without this process's steps is empty. */
  lemma AloneIsQuiet(me: nat, trace: seq<Step>, log: seq<Call>, from: nat, to: nat)
    requires Attributed(me, NoOthers(), trace, log) && from <= to <= |trace| && NotBy(trace[from..to], me)
    ensures from == to
  {
    if from < to {
      assert trace[from..to][0] == trace[from];
      NoOneElse(trace[from]);
    }
  }

  lemma NoOneElse(step: Step)
    ensures !FromOthers(NoOthers(), step)
  {
  }

  lemma QuietTail(me: nat, was: seq<Step>, trace: seq<Step>, log: seq<Call>)
    requires Attributed(me, NoOthers(), trace, log) && was <= trace
    ensures NotBy(trace[|was|..], me) ==> trace == was
  {
    if NotBy(trace[|was|..], me) {
      assert trace[|was|..] == trace[|was|..|trace|];
      AloneIsQuiet(me, trace, log, |was|, |trace|);
    }
  }

  lemma FreshCountsFit(start: World)
    requires Fresh(start)
    ensures CountsFit(start.shards) && start.c.opening.None?
  {
    SumOfZeros(SHARDS);
  }

  /** The error that follows a committed open does happen: an event seeded in
      pre-queue, one process alone opening it, and every call answered but the open's
      write, which is told it failed although it opened the event. */
  method CommittedOpenAnsweredWithError(start: World, mac: Mac) returns (store: Store, r: Result<OpenResult, StoreError>)
    requires Fresh(start) && start.c.phase == PreQueue
    ensures store.Valid() && fresh(store) && store.start == start
    ensures r.Err? && store.world.c.opening.Some? && CommittedBy(start, store.trace, 0, store.me)
  {
    hide Inv, Grows, Exec, CommittedBy, Seen, Store.Valid, CountsFit;
    var fates := k => if k == SHARDS then LostReply else Answered;
    FreshCountsFit(start);
    store := new Store(0, start, NoOthers(), fates, k => 0, (k, id) => false);
    r := OpenEvent(store, mac);
    store.Stored();
    store.Attribution();
    QuietTail(0, [], store.trace, store.log);
    ExecNone(start);
    assert |store.log| > SHARDS;
    AloneIsQuiet(0, store.trace, store.log, 0, store.log[SHARDS].at);
    SeenAt(start, store.trace, store.log, SHARDS, []);
    CommittedIsOpened(start, store.trace, 0, store.me);
  }

  lemma CommittedIsOpened(start: World, trace: seq<Step>, from: nat, me: nat)
    requires Inv(start) && Legal(start, trace) && CommittedBy(start, trace, from, me)
    ensures Exec(start, trace).c.opening.Some?
  {
    hide Inv, Enabled;
    var k :| from <= k < |trace| && trace[k].actor == me && CommitsOpenAt(start, trace, k);
    StepAt(start, trace, k);
    LaterGrows(start, trace, k + 1, |trace|);
    assert trace[..|trace|] == trace;
    ClaimsKept(At(start, trace, k + 1), Exec(start, trace));
  }
}
