/** The admission check: whether a visitor may be admitted, and the once-only
    claim that counts their arrival. */
module GenerateToken {
  import opened Common
  import opened Cohort
  import opened QueueProtocol
  import opened QueueGuarantees
  import opened QueueStore

  datatype Denied =
    | NotRegistered
    | NotAdmitting
    | NotOpened
    | StillQueued(position: nat, serving: nat)
    | Corrupt
    | NotHolder

  datatype Grant = Grant(position: nat, digest: Digest)

  datatype Admission = Admitted(position: nat) | Refused(why: Denied) | EventNotFound | SignFailed

  function ResolvePosition(c: Counters, prequeue: Option<PreQueueRow>, row: Option<PositionRow>): Result<nat, Denied>
  {
    if row.Some? then Ok(row.value.position)
    else if prequeue.None? then Err(NotRegistered)
    else
      match ResolvePrequeue(c, prequeue.value)
      case CohortPosition(p) => Ok(p)
      case JoinsLive => Err(NotRegistered)
      case NotOpen => Err(NotOpened)
      case BadShard => Err(Corrupt)
  }

  function Decide(c: Counters, prequeue: Option<PreQueueRow>, row: Option<PositionRow>,
                  presented: Digest, now: nat): Result<Grant, Denied>
  {
    if row.None? && prequeue.None? then Err(NotRegistered)
    else
      var digest := if row.Some? then row.value.digest else prequeue.value.digest;
      if digest != presented then Err(NotHolder)
      else if Resolve(c.control, c.failOpenUntil, now) != Open then Err(NotAdmitting)
      else if c.phase != Active then Err(NotAdmitting)
      else
        match ResolvePosition(c, prequeue, row)
        case Err(e) => Err(e)
        case Ok(p) =>
          if p >= c.servingCounter then Err(StillQueued(p, c.servingCounter))
          else Ok(Grant(p, digest))
  }

  /** A caller who presents the wrong secret gets the same answer whatever the
      state of the queue: the request id alone reveals nothing. */
  lemma WrongSecretLearnsNothing(c: Counters, c': Counters, pre: Option<PreQueueRow>, pre': Option<PreQueueRow>,
                                 row: Option<PositionRow>, row': Option<PositionRow>,
                                 presented: Digest, now: nat, now': nat)
    requires row.Some? || pre.Some?
    requires row'.Some? || pre'.Some?
    requires (if row.Some? then row.value.digest else pre.value.digest) != presented
    requires (if row'.Some? then row'.value.digest else pre'.value.digest) != presented
    ensures Decide(c, pre, row, presented, now) == Decide(c', pre', row', presented, now') == Err(NotHolder)
  {
  }

  /** A grant is exactly a holder, of a reached position, in a running event. */
  lemma GrantedExactlyWhen(w: World, id: RequestId, presented: Digest, now: nat)
    requires Inv(w)
    ensures var pre := if id in w.prequeue then Some(w.prequeue[id]) else None;
            var row := if id in w.positions then Some(w.positions[id]) else None;
            Decide(w.c, pre, row, presented, now).Ok? <==>
            && PositionOf(w, id).Some? && PositionOf(w, id).value < w.c.servingCounter
            && (if id in w.positions then w.positions[id].digest == presented else w.prequeue[id].digest == presented)
            && w.c.phase == Active && w.c.control == Admitting && now >= w.c.failOpenUntil
  {
  }

  /** Where the published offsets and draw put a counted registration. */
  ghost predicate CountedAt(w: World, row: PreQueueRow, p: nat)
  {
    && w.c.opening.Some? && row.shard < 10 && |w.openedCounts| == 10 && row.localIndex < w.openedCounts[row.shard]
    && var i := Sum(w.openedCounts[..row.shard]) + row.localIndex;
       i < |w.c.opening.value.perm| && p == w.c.opening.value.perm[i]
  }

  /** What the open published is the fold of the counts it read and their draw. */
  ghost predicate OpenedFrom(w: World)
  {
    w.c.opening.Some? ==>
      && |w.openedCounts| == SHARDS && Sum(w.openedCounts) <= U64_MAX
      && w.c.opening.value.offsets == Folded(w.openedCounts) && |w.c.opening.value.perm| == Sum(w.openedCounts)
  }

  lemma ResolvesExactly(w: World, row: PreQueueRow)
    requires OpenedFrom(w)
    ensures var to := ResolvePrequeue(ReadCounters(w.c), row);
            && (to.NotOpen? <==> w.c.opening.None?)
            && (to.BadShard? <==> w.c.opening.Some? && row.shard >= 10)
            && (to.JoinsLive? <==> w.c.opening.Some? && row.shard < 10 && row.localIndex >= w.openedCounts[row.shard])
            && forall p: nat :: to == CohortPosition(p) <==> CountedAt(w, row, p)
  {
    if w.c.opening.Some? && row.shard < 10 {
      AssignOfFold(w.openedCounts, row.shard, row.localIndex);
    }
  }

  /** Every answer, exactly. `w` is the state the counters were read in, and the rows
      may be of any later moment: without a row the visitor is unknown; with another's
      secret they learn nothing; on hold, failed open or outside the active phase
      nobody is admitted; and then it is the live row's position, or the one the open
      gave a counted registration, that is waited for or granted. */
  lemma AnswersExactly(w: World, pre: Option<PreQueueRow>, row: Option<PositionRow>, presented: Digest, now: nat)
    requires OpenedFrom(w)
    ensures var d := Decide(ReadCounters(w.c), pre, row, presented, now);
            var known := row.Some? || pre.Some?;
            var mine := known && presented == (if row.Some? then row.value.digest else pre.value.digest);
            var running := w.c.phase == Active && w.c.control == Admitting && w.c.failOpenUntil <= now;
            var isOpen, s := w.c.opening.Some?, w.c.servingCounter;
            && (d == Err(NotHolder) <==> known && !mine)
            && (d == Err(NotAdmitting) <==> mine && !running)
            && (d == Err(NotOpened) <==> mine && running && row.None? && !isOpen)
            && (d == Err(Corrupt) <==> mine && running && row.None? && isOpen && pre.value.shard >= 10)
            && (d == Err(NotRegistered) <==>
                  || !known
                  || (mine && running && row.None? && isOpen && pre.value.shard < 10
                      && pre.value.localIndex >= w.openedCounts[pre.value.shard]))
            && (forall p: nat, t: nat :: d == Err(StillQueued(p, t)) <==>
                  mine && running && (if row.Some? then p == row.value.position else CountedAt(w, pre.value, p)) && t == s <= p)
            && (forall p: nat, digest: Digest :: d == Ok(Grant(p, digest)) <==>
                  mine && running && (if row.Some? then p == row.value.position else CountedAt(w, pre.value, p)) && p < s
                  && digest == presented)
  {
    hide ResolvePrequeue, CountedAt;
    if pre.Some? {
      ResolvesExactly(w, pre.value);
    }
  }

  lemma OpenedFromHolds(w: World)
    requires Inv(w)
    ensures OpenedFrom(w) && (w.c.phase == Active ==> w.c.opening.Some?)
  {
  }

  lemma RowIsOnShard(w: World, id: RequestId)
    requires Inv(w) && id in w.prequeue
    ensures w.prequeue[id].shard < SHARDS
  {
  }

  /** On what the tables really hold, whenever each was read, no answer is ever that
      the event is not open or a row is corrupt. */
  lemma NeverNotOpened(w: World, at: World, id: RequestId, row: Option<PositionRow>, presented: Digest, now: nat)
    requires Inv(w) && Inv(at)
    ensures Decide(ReadCounters(w.c), PreQueueRowOf(at, id), row, presented, now) !in {Err(NotOpened), Err(Corrupt)}
  {
    hide Inv, Decide;
    OpenedFromHolds(w);
    AnswersExactly(w, PreQueueRowOf(at, id), row, presented, now);
    if id in at.prequeue {
      RowIsOnShard(at, id);
    }
  }

  /** What a grant says, in terms of what was read. */
  lemma GrantMeans(c: Counters, pre: Option<PreQueueRow>, row: Option<PositionRow>, presented: Digest, now: nat)
    requires Decide(c, pre, row, presented, now).Ok?
    ensures var p := Decide(c, pre, row, presented, now).value.position;
            && p < c.servingCounter
            && (row.Some? ==> p == row.value.position)
            && (row.None? ==> pre.Some? && ResolvePrequeue(c, pre.value) == CohortPosition(p))
  {
  }

  /** A row resolves later as it resolved at the read, once the event is open. */
  lemma ResolvedStays(atCounters: World, w: World, row: PreQueueRow, p: nat)
    requires Grows(atCounters, w)
    requires ResolvePrequeue(ReadCounters(atCounters.c), row) == CohortPosition(p)
    ensures ResolvePrequeue(w.c, row) == CohortPosition(p)
  {
    assert w.c.opening == atCounters.c.opening;
  }

  /** What was read stays a position the id owns, below a cursor that only grows. */
  lemma GrantedIsOwned(atCounters: World, w: World, id: RequestId, c: Counters, pre: Option<PreQueueRow>,
                       row: Option<PositionRow>, atRow: World, presented: Digest, now: nat)
    requires Inv(w) && Inv(atRow) && Grows(atCounters, w) && Grows(atRow, w)
    requires c == ReadCounters(atCounters.c)
    requires row.Some? ==> id in atRow.positions && atRow.positions[id] == row.value
    requires pre.Some? ==> id in w.prequeue && w.prequeue[id] == pre.value
    requires Decide(c, pre, row, presented, now).Ok?
    ensures var p := Decide(c, pre, row, presented, now).value.position;
            Owns(w, id, p) && p < w.c.servingCounter
  {
    hide Decide, Inv, Grows, Owns, ResolvePrequeue;
    GrantMeans(c, pre, row, presented, now);
    QueueKept(atCounters, w);
    var p := Decide(c, pre, row, presented, now).value.position;
    if row.Some? {
      RowIsOwned(atRow, id);
      OwnsPersists(atRow, w, id, p);
    } else {
      ResolvedStays(atCounters, w, pre.value, p);
      ResolvedIsOwned(w, id, p);
    }
  }

  /** The visitor's rows: the `Positions` row, by the first call made, and the
      `PreQueue` row, by the next, only when there is none. */
  method ReadRows(store: Store, id: RequestId)
    returns (r: Result<(Option<PreQueueRow>, Option<PositionRow>), StoreError>)
    requires store.Valid()
    modifies store
    ensures store.Valid() && store.Since()
    ensures NotBy(store.trace[|old(store.trace)|..], store.me)
    ensures var k := |old(store.log)|; var row := PositionRowOf(store.Saw(k), id);
            && k < |store.log| && store.log[k].op == GetPosition
            && Grows(old(store.world), store.Saw(k)) && Grows(store.Saw(k), store.world) && Inv(store.Saw(k))
            && (r.Ok? ==>
                  && r.value == ((if row.Some? then None else PreQueueRowOf(store.SawBehind(k + 1), id)), row)
                  && |store.log| == k + (if row.Some? then 1 else 2))
            && (r.Err? ==> !AllAnswered(store.fates, k, |store.log|))
    ensures r.Ok? && r.value.0.Some? ==> id in store.world.prequeue && store.world.prequeue[id] == r.value.0.value
    ensures store.me in store.world.tokens <==> store.me in old(store.world).tokens
  {
    hide Inv, Grows, Exec, Legal, Store.Valid, Seen, SeenBehind;
    var row := store.LoadPosition(id);
    ghost var at, was, calls := store.world, store.trace, store.log;
    store.OthersOnly();
    store.Stored();
    GrowsRefl(at);
    if row.Err? {
      return Err(Backend);
    }
    if row.value.Some? {
      return Ok((None, row.value));
    }
    var pre := store.LoadPrequeue(id);
    assert store.trace[|old(store.trace)|..] == was[|old(store.trace)|..] + store.trace[|was|..];
    GrowsTrans(old(store.world), at, store.world);
    SeenStays(store.start, was, calls, store.trace, store.log, store.lag, |old(store.log)|);
    if pre.Err? {
      return Err(Backend);
    }
    r := Ok((pre.value, None));
  }

  /** With an arrival shard drawn and every call reaching the store, a process that
      owed no arrival before owes none after: a first claim was counted, and a
      repeated one was not. */
  twostate predicate SettlesArrival(store: Store, shard: Option<nat>)
    reads store
  {
    store.me !in old(store.world).tokens && shard.Some?
    && (forall k :: |old(store.log)| <= k < |store.log| ==> store.fates(k) != Unreached)
    ==> store.me !in store.world.tokens
  }

  /** Call `k` sent the claim of this grant for this id, and the one after it the
      arrival on the shard drawn, exactly when one was drawn and the claim was not
      answered as a repeat. A claim that reached the store left the visitor admitted. */
  ghost predicate ClaimedAndCounted(store: Store, k: nat, id: RequestId, grant: Grant, shard: Option<nat>)
    reads store
  {
    var claim := QueueProtocol.ClaimAdmission(id, grant.position, grant.digest, store.fates(k) == Answered);
    var counted := shard.Some? && !(store.fates(k) == Answered && !ClaimsFirst(store.Saw(k), id));
    && k < |store.log| && store.log[k].op == Update
    && Sent(store.trace, store.log, store.fates, k, Step(store.me, claim))
    && |store.log| == k + (if counted then 2 else 1)
    && (counted ==> Sent(store.trace, store.log, store.fates, k + 1, Step(store.me, QueueProtocol.RecordArrival(shard.value))))
    && (store.fates(k) != Unreached ==> id in QueueProtocol.Admitted(store.world))
  }

  /** The claim, as the first call made, and the arrival it owes: counted exactly when
      a shard could be drawn and the claim was not answered as a repeat. A claim that
      reaches the store leaves the visitor admitted, answered or not, and a lost
      arrival does not fail the call. */
  method ClaimAndCount(store: Store, id: RequestId, grant: Grant, shard: Option<nat>)
    requires store.Valid() && (shard.Some? ==> shard.value < SHARDS)
    requires Owns(store.world, id, grant.position) && grant.position < store.world.c.servingCounter
    modifies store
    ensures store.Valid() && store.Since()
    ensures Owns(store.world, id, grant.position) && grant.position < store.world.c.servingCounter
    ensures ClaimedAndCounted(store, |old(store.log)|, id, grant, shard)
    ensures SettlesArrival(store, shard)
  {
    hide Inv, Grows, Exec, Legal, Store.Valid, Owns, QueueProtocol.Admitted, ClaimsFirst, Seen;
    ghost var before := store.world;
    var claim := store.ClaimAdmission(id, grant.position, grant.digest);
    ghost var atClaim, was, calls := store.world, store.trace, store.log;
    store.Stored();
    OwnsPersists(before, atClaim, id, grant.position);
    QueueKept(before, atClaim);
    if claim != Ok(Repeat) && shard.Some? {
      var recorded := store.RecordArrival(shard.value);
      GrowsTrans(before, atClaim, store.world);
      OwnsPersists(atClaim, store.world, id, grant.position);
      QueueKept(atClaim, store.world);
      AdmittedKept(atClaim, store.world, id);
      SeenStays(store.start, was, calls, store.trace, store.log, store.lag, |old(store.log)|);
    }
  }

  /** The decision on what calls `k`, `k + 1` and, with no live row, `k + 2` answered:
      the counters, the live row and the pre-queue row. */
  ghost function DecisionAt(store: Store, k: nat, id: RequestId, presented: Digest, now: nat): Result<Grant, Denied>
    reads store
  {
    var row := PositionRowOf(store.Saw(k + 1), id);
    var pre := if row.Some? then None else PreQueueRowOf(store.SawBehind(k + 2), id);
    Decide(ReadCounters(store.Saw(k).c), pre, row, presented, now)
  }

  /** The call that claims the admission decided on at call `k`. */
  ghost function ClaimCall(store: Store, k: nat, id: RequestId): nat
    reads store
  {
    if PositionRowOf(store.Saw(k + 1), id).Some? then k + 2 else k + 3
  }

  /** The reads and the decision on them; `None` when there is no such event. The calls
      are the reads and nothing else, so the next one is the claim. */
  method DecideOnReads(store: Store, id: RequestId, presented: Digest, now: nat)
    returns (r: Result<Option<Result<Grant, Denied>>, StoreError>)
    requires store.Valid()
    modifies store
    ensures store.Valid() && store.Since()
    ensures NotBy(store.trace[|old(store.trace)|..], store.me)
    ensures store.me in store.world.tokens <==> store.me in old(store.world).tokens
    ensures var k := |old(store.log)|;
            && k < |store.log| && store.log[k].op == GetCounters
            && (r.Err? ==> !AllAnswered(store.fates, k, |store.log|))
            && (r == Ok(None) <==> store.fates(k) == Answered && !store.Saw(k).seeded)
            && (r.Ok? && r.value.Some? ==>
                  && r.value.value == DecisionAt(store, k, id, presented, now)
                  && |store.log| == ClaimCall(store, k, id))
    ensures r.Ok? && r.value.Some? && r.value.value.Ok? ==>
              var p := r.value.value.value.position; Owns(store.world, id, p) && p < store.world.c.servingCounter
  {
    hide Inv, Grows, Exec, Legal, Store.Valid, Owns, Decide, Seen, SeenBehind;
    ghost var k := |store.log|;
    store.OthersOnly();
    var counters := store.LoadCounters();
    ghost var atCounters, was, calls := store.world, store.trace, store.log;
    store.Stored();
    assert was[|old(store.trace)|..] == store.others(k, old(store.world));
    if counters.Err? {
      return Err(Backend);
    }
    if counters.value.None? {
      return Ok(None);
    }
    var rows := ReadRows(store, id);
    store.OthersOnly();
    GrowsTrans(old(store.world), atCounters, store.world);
    GrowsTrans(atCounters, store.Saw(k + 1), store.world);
    SeenStays(store.start, was, calls, store.trace, store.log, store.lag, k);
    assert store.trace[|old(store.trace)|..] == was[|old(store.trace)|..] + store.trace[|was|..];
    if rows.Err? {
      return Err(Backend);
    }
    var (pre, row) := rows.value;
    var decision := Decide(counters.value.value, pre, row, presented, now);
    if decision.Ok? {
      GrantedIsOwned(atCounters, store.world, id, counters.value.value, pre, row, store.Saw(k + 1), presented, now);
    }
    r := Ok(Some(decision));
  }

  /** How a decision is answered. */
  predicate Answers(decision: Result<Grant, Denied>, signs: bool, r: Admission)
  {
    match decision
    case Err(why) => r == Refused(why)
    case Ok(grant) => r == if signs then Admitted(grant.position) else SignFailed
  }

  /** One admission call, answering its decision on what its reads saw; it fails only
      at a read that failed. Whatever runs in between, an admitted visitor holds a
      position claimed for their own id that the cursor has passed; if the claim
      reached the store they are marked admitted for good; and a refusal takes no
      step. `shard` is the arrival shard drawn, if the draw succeeded; `signs` is
      whether signing the session succeeds. */
  method Admit(store: Store, id: RequestId, presented: Digest, shard: Option<nat>, signs: bool, now: nat)
    returns (r: Result<Admission, StoreError>)
    requires store.Valid() && (shard.Some? ==> shard.value < SHARDS)
    modifies store
    ensures store.Valid() && store.Since()
    ensures var k := |old(store.log)|; var decision := DecisionAt(store, k, id, presented, now);
            && k < |store.log| && store.log[k].op == GetCounters
            && (r == Ok(EventNotFound) <==> store.fates(k) == Answered && !store.Saw(k).seeded)
            && (r.Err? ==> !AllAnswered(store.fates, k, |store.log|))
            && (r.Ok? && !r.value.EventNotFound? ==> Answers(decision, signs, r.value))
            && (r.Ok? && (r.value.Admitted? || r.value.SignFailed?) ==>
                  decision.Ok? && ClaimedAndCounted(store, ClaimCall(store, k, id), id, decision.value, shard))
    ensures r.Ok? && r.value.Admitted? ==>
              Owns(store.world, id, r.value.position) && r.value.position < store.world.c.servingCounter
    ensures r.Err? || r.value.Refused? || r.value.EventNotFound? ==> NotBy(store.trace[|old(store.trace)|..], store.me)
    ensures SettlesArrival(store, shard)
  {
    hide Inv, Grows, Exec, Legal, Store.Valid, Owns, Decide, QueueProtocol.Admitted, ClaimsFirst, Seen, SeenBehind, NotBy;
    ghost var k := |store.log|;
    var read := DecideOnReads(store, id, presented, now);
    ghost var atDecision, was, calls := store.world, store.trace, store.log;
    store.Stored();
    if read.Err? {
      return Err(Backend);
    }
    if read.value.None? {
      return Ok(EventNotFound);
    }
    var decision := read.value.value;
    if decision.Err? {
      return Ok(Refused(decision.error));
    }
    ClaimAndCount(store, id, decision.value, shard);
    GrowsTrans(old(store.world), atDecision, store.world);
    DecisionStays(store, was, calls, k, id);
    r := Ok(if signs then Admitted(decision.value.position) else SignFailed);
  }

  /** What the reads of a decision saw does not change afterwards. */
  lemma DecisionStays(store: Store, was: seq<Step>, calls: seq<Call>, k: nat, id: RequestId)
    requires was <= store.trace && calls <= store.log && forall i :: 0 <= i < |calls| ==> calls[i].at <= |was|
    requires k + 1 < |calls|
    ensures store.Saw(k) == Seen(store.start, was, calls, k) && store.Saw(k + 1) == Seen(store.start, was, calls, k + 1)
    ensures k + 2 < |calls| ==> store.SawBehind(k + 2) == SeenBehind(store.start, was, calls, store.lag, k + 2)
  {
    hide Seen, SeenBehind;
    SeenStays(store.start, was, calls, store.trace, store.log, store.lag, k);
    SeenStays(store.start, was, calls, store.trace, store.log, store.lag, k + 1);
    if k + 2 < |calls| {
      SeenStays(store.start, was, calls, store.trace, store.log, store.lag, k + 2);
    }
  }

  lemma AdmittedKept(w: World, w': World, id: RequestId)
    requires Grows(w, w')
    ensures id in QueueProtocol.Admitted(w) ==> id in QueueProtocol.Admitted(w')
  {
  }
}
