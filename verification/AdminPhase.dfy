/** The operator's lifecycle moves: phase transitions, the emergency stop, and
    opening the event now. */
module AdminPhase {
  import opened Common
  import opened Cohort
  import opened Permutation
  import opened QueueProtocol
  import opened QueueGuarantees
  import opened QueueStore
  import opened OpenEvent
  import opened Debounce

  datatype ApplyError = IllegalTransition | NotOpened | NotFound | TooFast | Failed(e: StoreError)

  /** What invoking the open function over the network comes to. */
  datatype Invocation = Completed | NeverRan | AnswerLost

  datatype OpenNow = OpenedNow | WasOpen

  /** Where a phase stands in the life of an event. */
  function Stage(p: Phase): int
    requires p != Maintenance
  {
    match p case Idle => 0 case PreQueue => 1 case Active => 2 case PostEvent => 3
  }

  /** An event stays where it is or takes the next of its four stages, one at a time;
      only maintenance can be entered from, and left for, any of them. */
  lemma TransitionsExactly(from: Phase, to: Phase)
    ensures TransitionAllowed(from, to) <==>
              (from != Maintenance && to != Maintenance ==> 0 <= Stage(to) - Stage(from) <= 1)
  {
  }

  /** The transitions the dashboard offers. */
  function NextPhases(from: Phase): seq<Phase>
  {
    match from
    case Idle => [PreQueue]
    case Active => [PostEvent]
    case PreQueue => []
    case PostEvent => []
    case Maintenance => [Active, Idle]
  }

  /** Everything the dashboard offers is legal and neither a no-op nor the
      emergency stop; the one legal forward step it withholds is the open itself,
      and from maintenance it offers only the way back and the reset. */
  lemma OfferedPhases(from: Phase, to: Phase)
    ensures to in NextPhases(from) ==> TransitionAllowed(from, to) && to != from && to != Maintenance
    ensures TransitionAllowed(from, to) && to != from && to != Maintenance && to !in NextPhases(from)
            <==> (from == PreQueue && to == Active) || (from == Maintenance && (to == PreQueue || to == PostEvent))
  {
  }

  /** A phase move, decided on the item its call `k` answered for. Exactly the illegal
      moves, the moves into maintenance and the moves to active on an unopened event
      are refused, and a refusal takes no step; every other move is sent, as call
      `k + 1`, guarded by the phase that was loaded. It lands exactly on a state still
      in that phase, so every committed move is a legal one from the phase it found. */
  method ApplyPhase(store: Store, to: Phase, nowMs: nat) returns (r: Result<Phase, ApplyError>)
    requires store.Valid()
    modifies store
    ensures store.Valid() && store.Since()
    ensures var k := |old(store.log)|; k < |store.log| && store.log[k].op == GetControl
    ensures var k := |old(store.log)|; var loaded, seen := store.fates(k) == Answered, ItemOf(store.SawBehind(k));
            && (!loaded ==> r == Err(Failed(Backend)))
            && (r == Err(NotFound) <==> loaded && seen.None?)
            && (r == Err(IllegalTransition) <==>
                  loaded && seen.Some? && (to == Maintenance || !TransitionAllowed(seen.value.phase, to)))
            && (r == Err(NotOpened) <==>
                  loaded && seen.Some? && TransitionAllowed(seen.value.phase, to) && to == Active && seen.value.opening.None?)
            && (r.Err? && (!loaded || !r.error.Failed?) ==> NotBy(store.trace[|old(store.trace)|..], store.me))
            && (r.Ok? || (loaded && r.error.Failed?) ==>
                  && seen.Some? && |store.log| == k + 2 && store.log[k + 1].op == Update
                  && PhaseWritten(store, k + 1, seen.value.phase, to, nowMs, r))
    ensures r.Ok? && to == Active ==> store.world.c.opening.Some?
  {
    hide Inv, Grows, Exec, Legal, Store.Valid, TransitionAllowed, Seen, SeenBehind, AfterControl, ControlCommits, PhaseIs;
    var state := store.LoadControl();
    ghost var atLoad, was, calls := store.world, store.trace, store.log;
    if state.Err? {
      return Err(Failed(Backend));
    }
    if state.value.None? {
      return Err(NotFound);
    }
    var c := state.value.value;
    if to == Maintenance || !TransitionAllowed(c.phase, to) {
      return Err(IllegalTransition);
    }
    if to == Active && c.opening.None? {
      return Err(NotOpened);
    }
    store.Stored();
    var write := store.Mutate(SetPhase(c.phase, to, nowMs));
    SeededKept(atLoad, store.Saw(|old(store.log)| + 1));
    PhaseWrites(store.Saw(|old(store.log)| + 1), SetPhase(c.phase, to, nowMs));
    SeenStays(store.start, was, calls, store.trace, store.log, store.lag, |old(store.log)|);
    GrowsTrans(old(store.world), atLoad, store.world);
    ClaimsKept(atLoad, store.world);
    r := if write.Ok? then Ok(to) else Err(Failed(write.error));
  }

  /** A write guarded by a phase, to an item that exists. */
  lemma PhaseWrites(at: World, act: Action)
    requires at.seeded && (act.SetPhase? || act.ForceMaintenance?)
    ensures ControlCommits(at, act) <==> PhaseIs(at, act.from)
    ensures AfterControl(at, act) ==
            if PhaseIs(at, act.from)
            then at.(c := at.c.(phase := if act.SetPhase? then act.to else Maintenance, lastActionMs := Some(act.nowMs)))
            else at
  {
  }

  /** Call `w` sent a move from `from` to `to`: it took the state it found there exactly
      when that was still the phase, and the answer says so when it arrives. */
  ghost predicate PhaseWritten(store: Store, w: nat, from: Phase, to: Phase, nowMs: nat, r: Result<Phase, ApplyError>)
    reads store
  {
    var at := store.Saw(w);
    && TransitionAllowed(from, to) && to != Maintenance
    && store.world == (if store.fates(w) != Unreached && PhaseIs(at, from)
                       then at.(c := at.c.(phase := to, lastActionMs := Some(nowMs))) else at)
    && r == (if store.fates(w) != Answered then Err(Failed(Backend))
             else if PhaseIs(at, from) then Ok(to) else Err(Failed(Conflict)))
  }

  /** The emergency stop: legal from any phase, never debounced. It is sent whenever the
      item is found, and lands exactly on a state still in the phase it loaded. */
  method ApplyForceMaintenance(store: Store, nowMs: nat) returns (r: Result<(), ApplyError>)
    requires store.Valid()
    modifies store
    ensures store.Valid() && store.Since()
    ensures var k := |old(store.log)|; k < |store.log| && store.log[k].op == GetControl
    ensures var k := |old(store.log)|; var loaded, seen := store.fates(k) == Answered, ItemOf(store.SawBehind(k));
            && (!loaded ==> r == Err(Failed(Backend)))
            && (loaded && seen.None? ==> r == Err(NotFound))
            && (!loaded || seen.None? ==> NotBy(store.trace[|old(store.trace)|..], store.me))
            && (loaded && seen.Some? ==>
                  var at, from := store.Saw(k + 1), seen.value.phase;
                  && |store.log| == k + 2 && store.log[k + 1].op == Update
                  && store.world == (if store.fates(k + 1) != Unreached && PhaseIs(at, from)
                                     then at.(c := at.c.(phase := Maintenance, lastActionMs := Some(nowMs))) else at)
                  && r == (if store.fates(k + 1) != Answered then Err(Failed(Backend))
                           else if PhaseIs(at, from) then Ok(()) else Err(Failed(Conflict))))
  {
    hide Inv, Grows, Exec, Legal, Store.Valid, Seen, SeenBehind, AfterControl, ControlCommits, PhaseIs;
    var state := store.LoadControl();
    ghost var atLoad, was, calls := store.world, store.trace, store.log;
    if state.Err? {
      return Err(Failed(Backend));
    }
    if state.value.None? {
      return Err(NotFound);
    }
    store.Stored();
    var write := store.Mutate(ForceMaintenance(state.value.value.phase, nowMs));
    SeededKept(atLoad, store.Saw(|old(store.log)| + 1));
    PhaseWrites(store.Saw(|old(store.log)| + 1), ForceMaintenance(state.value.value.phase, nowMs));
    SeenStays(store.start, was, calls, store.trace, store.log, store.lag, |old(store.log)|);
    GrowsTrans(old(store.world), atLoad, store.world);
    r := if write.Ok? then Ok(()) else Err(Failed(write.error));
  }

  /** The open function ran: its answer, if it arrives, and the stamp of the call that
      opened the event, which no other sends. */
  method RunOpen(store: Store, mac: Mac, invocation: Invocation, nowNanos: nat) returns (r: Result<OpenNow, ApplyError>)
    requires store.Valid() && !invocation.NeverRan?
    modifies store
    ensures store.Valid() && store.Since()
    ensures r.Err? ==> r == Err(Failed(Backend))
    ensures r.Ok? ==> store.world.c.opening.Some?
    ensures |store.log| <= |old(store.log)| + SHARDS ==>
              !AllAnswered(store.fates, |old(store.log)|, |store.log|) || !CountsFit(store.world.shards)
    ensures var w := |old(store.log)| + SHARDS;
            r == Ok(OpenedNow) <==>
              invocation.Completed? && |store.log| > w && store.fates(w) == Answered && OpenCommits(store.Saw(w))
    ensures var w := |old(store.log)| + SHARDS;
            r == Ok(WasOpen) <==>
              && invocation.Completed? && |store.log| > w && store.fates(w) == Answered && !OpenCommits(store.Saw(w))
              && store.fates(w + 1) == Answered && store.SawBehind(w + 1).c.opening.Some?
    ensures r == Ok(OpenedNow) ==> CommittedBy(store.start, store.trace, |old(store.trace)|, store.me)
    ensures r == Ok(OpenedNow) ==> StampSent(store, |old(store.log)| + SHARDS + 1, nowNanos / 1_000_000)
    ensures r == Ok(WasOpen) ==> |store.log| == |old(store.log)| + SHARDS + 2
    ensures r == Ok(WasOpen) ==> !CommittedBy(store.start, store.trace, |old(store.trace)|, store.me)
  {
    hide Inv, Grows, Exec, Legal, Store.Valid, CommittedBy, Seen, SeenBehind, CountsFit, AfterControl, ControlCommits,
         OpenCommits;
    var open := OpenEvent.OpenEvent(store, mac);
    ghost var ran, ranTrace, ranLog := store.world, store.trace, store.log;
    if invocation.AnswerLost? || open.Err? {
      return Err(Failed(Backend));
    }
    if open.value.AlreadyOpen? {
      return Ok(WasOpen);
    }
    store.Stored();
    var stamp := store.Mutate(Stamp(nowNanos / NANOS_PER_MILLI));
    GrowsTrans(old(store.world), ran, store.world);
    ClaimsKept(ran, store.world);
    SeenStays(store.start, ranTrace, ranLog, store.trace, store.log, store.lag, |old(store.log)| + SHARDS);
    CommitKept(store.start, ranTrace, store.trace, |old(store.trace)|, store.me);
    r := Ok(OpenedNow);
  }

  /** Opens the event now, by running the same open the schedule runs. It is refused,
      with no step taken, exactly outside the pre-queue phase and inside the debounce
      window of the item its call `k` answered for. Otherwise, if the open runs, its
      calls start at `k + 1`; either answer means the event is open, and `OpenedNow`
      is given exactly when this call's own write committed, and `WasOpen` exactly when it
      was refused and the read after it showed the opening, the answers arriving. A lost stamp does not turn success into failure. */
  method ApplyOpenNow(store: Store, mac: Mac, invocation: Invocation, nowNanos: nat) returns (r: Result<OpenNow, ApplyError>)
    requires store.Valid()
    modifies store
    ensures store.Valid() && store.Since()
    ensures var k := |old(store.log)|; k < |store.log| && store.log[k].op == GetControl
    ensures var k := |old(store.log)|; var loaded, seen := store.fates(k) == Answered, ItemOf(store.SawBehind(k));
            && (!loaded ==> r == Err(Failed(Backend)))
            && (r == Err(NotFound) <==> loaded && seen.None?)
            && (r == Err(IllegalTransition) <==> loaded && seen.Some? && seen.value.phase != PreQueue)
            && (r == Err(TooFast) <==>
                  loaded && seen.Some? && seen.value.phase == PreQueue && !DebounceCheck(seen.value.lastActionMs, nowNanos))
            && r != Err(NotOpened)
            && (r.Err? && (!loaded || !r.error.Failed?) ==> NotBy(store.trace[|old(store.trace)|..], store.me))
    ensures r.Ok? ==> store.world.c.opening.Some?
    ensures !invocation.NeverRan? && (r.Ok? || r == Err(Failed(Backend))) && |store.log| <= |old(store.log)| + 1 + SHARDS ==>
              !AllAnswered(store.fates, |old(store.log)|, |store.log|) || !CountsFit(store.world.shards)
    ensures var w := |old(store.log)| + 1 + SHARDS;
            r == Ok(OpenedNow) <==>
              invocation.Completed? && |store.log| > w && store.fates(w) == Answered && OpenCommits(store.Saw(w))
    ensures var w := |old(store.log)| + 1 + SHARDS;
            r == Ok(WasOpen) <==>
              && invocation.Completed? && |store.log| > w && store.fates(w) == Answered && !OpenCommits(store.Saw(w))
              && store.fates(w + 1) == Answered && store.SawBehind(w + 1).c.opening.Some?
    ensures r == Ok(OpenedNow) ==> CommittedBy(store.start, store.trace, |old(store.trace)|, store.me)
    ensures r == Ok(OpenedNow) ==> StampSent(store, |old(store.log)| + 1 + SHARDS + 1, nowNanos / 1_000_000)
    ensures r == Ok(WasOpen) ==> |store.log| == |old(store.log)| + 1 + SHARDS + 2
    ensures r == Ok(WasOpen) ==> !CommittedBy(store.start, store.trace, |old(store.trace)|, store.me)
  {
    hide Inv, Grows, Exec, Legal, Store.Valid, CommittedBy, DebounceCheck, Seen, SeenBehind, CountsFit;
    var state := store.LoadControl();
    ghost var atLoad, loadedTrace, loadedLog := store.world, store.trace, store.log;
    if state.Err? {
      return Err(Failed(Backend));
    }
    if state.value.None? {
      return Err(NotFound);
    }
    var c := state.value.value;
    if c.phase != PreQueue {
      return Err(IllegalTransition);
    }
    if !DebounceCheck(c.lastActionMs, nowNanos) {
      return Err(TooFast);
    }
    if invocation.NeverRan? {
      return Err(Failed(Backend));
    }
    store.Stored();
    r := RunOpen(store, mac, invocation, nowNanos);
    GrowsTrans(old(store.world), atLoad, store.world);
    SeenStays(store.start, loadedTrace, loadedLog, store.trace, store.log, store.lag, |old(store.log)|);
    assert store.trace[|old(store.trace)|..|loadedTrace|] == loadedTrace[|old(store.trace)|..];
    StillNotCommitted(store.start, store.trace, |old(store.trace)|, |loadedTrace|, store.me);
  }

  lemma CommitKept(w: World, run: seq<Step>, longer: seq<Step>, from: nat, me: nat)
    requires run <= longer
    ensures CommittedBy(w, run, from, me) ==> CommittedBy(w, longer, from, me)
  {
    if CommittedBy(w, run, from, me) {
      var k :| from <= k < |run| && run[k].actor == me && CommitsOpenAt(w, run, k);
      assert longer[..k] == run[..k] && longer[k] == run[k];
      assert CommitsOpenAt(w, longer, k);
    }
  }
}
