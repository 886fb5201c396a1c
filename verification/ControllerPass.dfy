/** One controller pass against the store: read, gate, compute, compare-and-set. */
module ControllerPass {
  import opened Common
  import opened Cohort
  import opened Release
  import opened QueueProtocol
  import opened QueueGuarantees
  import opened QueueStore
  import opened ControllerRuns

  datatype PassOutcome = NotActive(phase: Phase) | Held(control: AdmissionControl) | Ran(released: u64)

  /** The release inputs as read from the item and the arrival shards. */
  function InputsOf(c: Counters, arrivals: seq<u64>): ReleaseInputs
  {
    ReleaseInputs(arrivals, c.lastArrivalsTotal, c.lastServingCounter, c.servingCounter,
                  ReadU64(c.queueCounter), GetOr(c.targetRate, 0), c.lastOpenPassAt)
  }

  /** A stored rate outside `[0, 1]` reads as absent. */
  function PreviousRate(c: Counters): Option<real>
  {
    if c.noShow.Some? && 0.0 <= c.noShow.value <= 1.0 then c.noShow else None
  }

  /** The whole read: the counters, consistently, as the first call, then the ten
      arrival shards, each perhaps behind. It fails only when a call fails, there is
      no item, or an arrival count leaves 64 bits. */
  method ReadState(store: Store) returns (r: Result<(Counters, ReleaseInputs, Option<real>), StoreError>)
    requires store.Valid()
    modifies store
    ensures store.Valid() && store.Since()
    ensures NotBy(store.trace[|old(store.trace)|..], store.me)
    ensures var k := |old(store.log)|; k < |store.log| && store.log[k].op == GetCounters
    ensures var read := store.Saw(|old(store.log)|);
            && Grows(old(store.world), read) && Grows(read, store.world) && Inv(read)
            && (r.Ok? ==>
                  && read.seeded && r.value.0 == ReadCounters(read.c) && r.value.2 == PreviousRate(read.c)
                  && |r.value.1.arrivals| == SHARDS && r.value.1 == InputsOf(read.c, r.value.1.arrivals))
            && (r.Err? ==>
                  || !AllAnswered(store.fates, |old(store.log)|, |store.log|) || !read.seeded
                  || exists s :: 0 <= s < |store.world.arrivals| && store.world.arrivals[s] > U64_MAX)
    ensures r.Ok? ==>
              && |store.log| == |old(store.log)| + 1 + SHARDS
              && ArrivalsSeen(store.start, store.trace, store.log, store.lag, |old(store.log)| + 1, r.value.1.arrivals)
              && BelowCounts(r.value.1.arrivals, store.world.arrivals)
  {
    hide Inv, Grows, Exec, Legal, Store.Valid, Seen, ArrivalsSeen;
    store.OthersOnly();
    var read := store.LoadCounters();
    ghost var at, was, calls := store.world, store.trace, store.log;
    assert was[|old(store.trace)|..] == store.others(|old(store.log)|, old(store.world));
    store.OthersOnly();
    store.Stored();
    GrowsRefl(at);
    if read.Err? || read.value.None? {
      return Err(Backend);
    }
    var c := read.value.value;
    var arrivals := store.ReadArrivals();
    GrowsTrans(old(store.world), at, store.world);
    SeenStays(store.start, was, calls, store.trace, store.log, store.lag, |old(store.log)|);
    assert store.trace[|old(store.trace)|..] == was[|old(store.trace)|..] + store.trace[|was|..];
    if arrivals.Err? {
      return Err(Backend);
    }
    r := Ok((c, InputsOf(c, arrivals.value), PreviousRate(c)));
  }

  /** What one landed release did: the cursor moved by `amount`, and the ledger
      records that this pass moved it. */
  ghost predicate MovedBy(at: World, w: World, me: nat, amount: nat, acked: bool)
  {
    w.c.servingCounter == at.c.servingCounter + amount &&
    w.c.lastServingCounter == at.c.servingCounter &&
    w.landed == at.landed + [Landed(me, amount, acked)]
  }

  lemma ReleaseEffect(at: World, me: nat, pass: Pass, acked: bool)
    requires ReadableRate(pass.prev)
    ensures var w := AfterRelease(at, me, pass.Decision(), acked);
            if at.c.servingCounter == pass.inputs.servingCounter
            then MovedBy(at, w, me, pass.Decision().release, acked)
            else w == at
  {
    PassBounds(pass.inputs, pass.prev, pass.now);
  }

  /** What a pass reports it released. */
  function ReportOf(r: Result<PassOutcome, StoreError>): u64
  {
    if r.Ok? && r.value.Ran? then r.value.released else 0
  }

  /** This process's releases come to what the pass reports, beside what it moved
      without being told, which is nothing unless it ended in an error. */
  ghost predicate Reports(landed: seq<Landed>, me: nat, r: Result<PassOutcome, StoreError>)
  {
    exists lost :: PassReports(landed, me, ReportOf(r), lost) && (r.Ok? ==> lost == 0)
  }

  lemma ReportsAre(landed: seq<Landed>, me: nat, r: Result<PassOutcome, StoreError>, reported: nat, lost: nat)
    requires PassReports(landed, me, reported, lost) && reported == ReportOf(r) && (r.Ok? ==> lost == 0)
    ensures Reports(landed, me, r)
  {
  }

  /** What a pass takes from the item: a queue too long for 64 bits, and a rate never
      set, read as zero, and a stored no-show rate outside `[0, 1]` as none. */
  ghost predicate ReadFrom(c: Counters, pass: Pass)
  {
    var i := pass.inputs;
    && i.lastArrivalsTotal == c.lastArrivalsTotal && i.lastServingCounter == c.lastServingCounter
    && i.servingCounter == c.servingCounter && i.lastOpenPassAt == c.lastOpenPassAt
    && i.queueCounter == (if c.queueCounter <= U64_MAX then c.queueCounter else 0)
    && i.targetRate == (if c.targetRate.Some? then c.targetRate.value else 0)
    && pass.prev == (if c.noShow.Some? && 0.0 <= c.noShow.value <= 1.0 then c.noShow else None)
  }

  /** The pass computed from the item read at call `k` and the arrivals read after it. */
  ghost predicate ComputedAt(store: Store, k: nat, now: u64, pass: Pass)
    reads store
  {
    && |pass.inputs.arrivals| == SHARDS
    && ArrivalsSeen(store.start, store.trace, store.log, store.lag, k + 1, pass.inputs.arrivals)
    && ReadFrom(store.Saw(k).c, pass) && pass.now == now
  }

  /** The step of call `w` is the release write of this pass. */
  ghost predicate WrittenAt(store: Store, w: nat, pass: Pass)
    reads store
  {
    && w < |store.log| && store.log[w].at < |store.trace|
    && store.trace[store.log[w].at] == Step(store.me, QueueProtocol.WriteRelease(pass, true))
  }

  /** Call `w` wrote the pass computed from what call `k` read, and the pass reports
      what it computed if the cursor was still the one read. */
  ghost predicate Released(store: Store, k: nat, w: nat, now: u64, released: nat)
    reads store
  {
    exists pass ::
      && ComputedAt(store, k, now, pass) && WrittenAt(store, w, pass)
      && released == if store.Saw(w).c.servingCounter == store.Saw(k).c.servingCounter then pass.Decision().release else 0
  }

  /** A pass that ran is, in its trace, a release computed from the cursor and the rate
      an earlier state stored. */
  lemma RanPassWasRead(store: Store, k: nat, w: nat, now: u64, released: nat)
    requires store.Valid() && k < |store.log| && w < |store.log| && store.log[k].at <= store.log[w].at
    requires Released(store, k, w, now, released)
    ensures store.log[w].at < |store.trace| && ReadAt(store.start, store.trace, store.log[w].at, store.log[k].at)
  {
    hide Inv, Exec, Legal, Pass.Decision, ComputeRelease, Store.Valid;
    store.Stored();
    var pass :| ComputedAt(store, k, now, pass) && WrittenAt(store, w, pass);
    LegalPrefix(store.start, store.trace, store.log[k].at);
    RunKeepsInv(store.start, store.trace[..store.log[k].at]);
    RateIsReadable(store.Saw(k));
    InputsRead(store.Saw(k).c, pass.inputs.arrivals);
  }

  /** The release write of a pass, as the first call made, and what it amounts to for
      this process: the amount moved, told or lost, and nothing more. */
  method WritePass(store: Store, pass: Pass) returns (r: Result<ReleaseOutcome, StoreError>)
    requires store.Valid() && store.world.c.opening.Some?
    requires pass.inputs.queueCounter <= store.world.c.queueCounter && ReadableRate(pass.prev)
    modifies store
    ensures store.Valid() && store.Since()
    ensures var w := |old(store.log)|;
            && |store.log| == w + 1 && store.log[w].op == Update && |old(store.trace)| <= store.log[w].at
            && (r.Ok? ==> WrittenAt(store, w, pass))
            && r == (if store.fates(w) != Answered then Err(Backend)
                     else if store.Saw(w).c.servingCounter == pass.inputs.servingCounter then Ok(Advanced) else Ok(LostRace))
            && old(store.world).landed <= store.world.landed
            && PassReports(store.world.landed[|old(store.world).landed|..], store.me,
                           if r == Ok(Advanced) then pass.Decision().release else 0,
                           if store.fates(w) == LostReply && store.Saw(w).c.servingCounter == pass.inputs.servingCounter
                           then pass.Decision().release else 0)
  {
    hide Inv, Grows, Exec, Legal, Store.Valid, Pass.Decision, AfterRelease, Seen, ComputeRelease;
    store.OthersOnly();
    store.Stored();
    ghost var steps, k := store.others(|store.log|, store.world), |store.log|;
    ExecAppend(store.start, store.trace, steps);
    OthersLandNothing(store.world, steps, store.me);
    r := store.WriteRelease(pass);
    ghost var at := store.Saw(k);
    SeenAt(store.start, store.trace, store.log, k, old(store.trace) + steps);
    ReleaseEffect(at, store.me, pass, store.fates(k) == Answered);
    OneMoreLanded(old(store.world).landed, at.landed, store.world.landed, store.me);
  }

  /** A ledger that gained at most one release of this process. */
  lemma OneMoreLanded(before: seq<Landed>, at: seq<Landed>, after: seq<Landed>, me: nat)
    requires before <= at && OwnLanded(at[|before|..], me) == []
    requires after == at || (|after| == |at| + 1 && after[..|at|] == at && after[|at|].actor == me)
    ensures before <= after
    ensures PassReports(after[|before|..], me,
                        if after != at && after[|at|].acked then after[|at|].amount else 0,
                        if after != at && !after[|at|].acked then after[|at|].amount else 0)
  {
    hide OwnLanded, Told;
    NoneToldOf(me);
    if after != at {
      var last := after[|at|];
      assert after[|before|..] == at[|before|..] + [last];
      OwnLandedAppend(at[|before|..], [last], me);
      OneToldOf(last);
      assert [] + [last] == [last];
    }
  }

  lemma NoneToldOf(me: nat)
    ensures OwnLanded([], me) == [] && Told([], true) == Told([], false) == 0
  {
  }

  lemma OneToldOf(last: Landed)
    ensures OwnLanded([last], last.actor) == [last]
    ensures Told([last], true) == (if last.acked then last.amount else 0)
    ensures Told([last], false) == (if last.acked then 0 else last.amount)
  {
    assert [last][..0] == [];
  }

  /** One pass, decided on the item its call `k` read. It does nothing outside the
      active phase or while admission is held. Otherwise its write, call `w`, reports
      what the release arithmetic computes when the cursor it reached is still the
      one read, and zero when not. What it reports is exactly what its own release
      moved the cursor by; only a pass answered with an error can have moved the
      cursor without reporting it. */
  method RunPass(store: Store, now: u64) returns (r: Result<PassOutcome, StoreError>)
    requires store.Valid()
    modifies store
    ensures store.Valid() && store.Since()
    ensures var k := |old(store.log)|; k < |store.log| && store.log[k].op == GetCounters
    ensures var read := store.Saw(|old(store.log)|); var failedOpen := now < read.c.failOpenUntil;
            && (r.Ok? ==> read.seeded)
            && (r.Ok? && r.value.NotActive? ==> r.value.phase == read.c.phase != Active)
            && (r.Ok? && r.value.Held? ==>
                  && read.c.phase == Active && (failedOpen || read.c.control == Paused)
                  && r.value.control == if failedOpen then FailOpen else OnHold)
            && (r.Ok? && r.value.Ran? ==> read.c.phase == Active && !failedOpen && read.c.control == Admitting)
            && (read.c.phase != Active || failedOpen || read.c.control == Paused ==>
                  NotBy(store.trace[|old(store.trace)|..], store.me))
            && (r.Err? ==>
                  || !AllAnswered(store.fates, |old(store.log)|, |store.log|) || !read.seeded
                  || exists s :: 0 <= s < |store.world.arrivals| && store.world.arrivals[s] > U64_MAX)
    ensures var k := |old(store.log)|; var w := k + 1 + SHARDS;
            r.Ok? && r.value.Ran? ==>
              && |store.log| == w + 1 && store.log[w].op == Update && store.fates(w) == Answered
              && store.log[k].at <= store.log[w].at && Released(store, k, w, now, r.value.released)
    ensures old(store.world).landed <= store.world.landed
    ensures Reports(store.world.landed[|old(store.world).landed|..], store.me, r)
  {
    hide Inv, Grows, Exec, Legal, Store.Valid, Pass.Decision, ComputeRelease, InputsOf, Seen, ArrivalsSeen, PassReports,
         Reports, WrittenAt, ReadFrom;
    store.Stored();
    ghost var first := store.trace;
    var state := ReadState(store);
    ghost var atRead, was, calls := store.world, store.trace, store.log;
    store.Stored();
    LedgerQuiet(store.start, first, was, store.me);
    ghost var tail := atRead.landed[|old(store.world).landed|..];
    ReportsAre(tail, store.me, Err(Backend), 0, 0);
    if state.Err? {
      return Err(Backend);
    }
    var (c, inputs, prev) := state.value;
    if c.phase != Active {
      r := Ok(NotActive(c.phase));
      ReportsAre(tail, store.me, r, 0, 0);
      return;
    }
    var control := Resolve(c.control, c.failOpenUntil, now);
    if control != Open {
      r := Ok(Held(control));
      ReportsAre(tail, store.me, r, 0, 0);
      return;
    }
    ghost var read := store.Saw(|old(store.log)|);
    ActiveIsOpened(read);
    ClaimsKept(read, store.world);
    QueueKept(read, store.world);
    RateIsReadable(read);
    InputsRead(read.c, inputs.arrivals);
    var pass := Pass(inputs, prev, now);
    var write := WritePass(store, pass);
    GrowsTrans(old(store.world), atRead, store.world);
    ghost var told := if write == Ok(Advanced) then pass.Decision().release else 0;
    ghost var lost := if store.fates(|calls|) == LostReply && store.Saw(|calls|).c.servingCounter == inputs.servingCounter
                      then pass.Decision().release else 0;
    ReportsJoin(old(store.world).landed, atRead.landed, store.world.landed, store.me, told, lost);
    SeenStays(store.start, was, calls, store.trace, store.log, store.lag, |old(store.log)|);
    ArrivalsStaySeen(store.start, was, calls, store.trace, store.log, store.lag, |old(store.log)| + 1, inputs.arrivals);
    r := if write.Err? then Err(Backend) else Ok(Ran(if write.value == LostRace then 0 else pass.Decision().release));
    ReportsAre(store.world.landed[|old(store.world).landed|..], store.me, r, told, lost);
    assert ComputedAt(store, |old(store.log)|, now, pass);
  }

  lemma LedgerQuiet(start: World, trace: seq<Step>, trace': seq<Step>, me: nat)
    requires trace <= trace' && NotBy(trace'[|trace|..], me)
    ensures var before, after := Exec(start, trace).landed, Exec(start, trace').landed;
            before <= after && OwnLanded(after[|before|..], me) == [] && PassReports(after[|before|..], me, 0, 0)
  {
    hide Exec;
    assert trace' == trace + trace'[|trace|..];
    ExecAppend(start, trace, trace'[|trace|..]);
    OthersLandNothing(Exec(start, trace), trace'[|trace|..], me);
  }

  lemma ReportsJoin(before: seq<Landed>, mid: seq<Landed>, after: seq<Landed>, me: nat, reported: nat, lost: nat)
    requires before <= mid && |mid| <= |after| && mid <= after && OwnLanded(mid[|before|..], me) == []
    requires PassReports(after[|mid|..], me, reported, lost)
    ensures before <= after && PassReports(after[|before|..], me, reported, lost)
  {
    assert after[|before|..] == mid[|before|..] + after[|mid|..];
    OwnLandedAppend(mid[|before|..], after[|mid|..], me);
    assert [] + OwnLanded(after[|mid|..], me) == OwnLanded(after[|mid|..], me);
  }

  lemma RateIsReadable(w: World)
    requires Inv(w)
    ensures ReadableRate(PreviousRate(w.c)) && PreviousRate(w.c) == w.c.noShow
  {
  }

  lemma ArrivalsStaySeen(start: World, trace: seq<Step>, log: seq<Call>, trace': seq<Step>, log': seq<Call>,
                         lag: nat -> nat, from: nat, counts: seq<u64>)
    requires trace <= trace' && log <= log' && forall k :: 0 <= k < |log| ==> log[k].at <= |trace|
    requires from + |counts| <= |log| && ArrivalsSeen(start, trace, log, lag, from, counts)
    ensures ArrivalsSeen(start, trace', log', lag, from, counts)
  {
    forall k | from <= k < from + |counts|
      ensures CountIs(counts, k - from, SeenBehind(start, trace', log', lag, k).arrivals)
    {
      SeenStays(start, trace, log, trace', log', lag, k);
      assert CountIs(counts, k - from, SeenBehind(start, trace, log, lag, k).arrivals);
    }
  }

  lemma InputsRead(c: Counters, arrivals: seq<u64>)
    requires |arrivals| == SHARDS
    ensures var i := InputsOf(c, arrivals);
            i.servingCounter == c.servingCounter && i.queueCounter == ReadU64(c.queueCounter) && i.arrivals == arrivals
    ensures forall now :: ReadFrom(c, Pass(InputsOf(c, arrivals), PreviousRate(c), now))
  {
  }
}
