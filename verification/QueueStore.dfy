/** The store ports as one process sees them. Before each call lands, any number
    of steps of other processes may land; the call itself may never reach the
    store, or land and lose its reply. `trace` is everything that has happened to
    the tables since the event was fresh, and `log` is this process's own calls,
    each with the moment it was answered for. */
module QueueStore {
  import opened Common
  import opened Cohort
  import opened Release
  import opened QueueProtocol
  import opened QueueGuarantees

  datatype StoreError = Backend | Conflict

  /** What becomes of one call: it lands and is answered, never reaches the store,
      or lands and the caller is told it failed. */
  datatype Fate = Answered | Unreached | LostReply

  /** What a call asks for; every conditional or additive write is an `Update`. */
  datatype Op =
    | GetCounters
    | GetControl
    | GetRegistered
    | GetShardCount
    | GetSeed
    | GetArrivals
    | GetPosition
    | GetPreQueueRow
    | Update

  /** One call, and the length of the trace at the moment it reached the store, or
      would have. */
  datatype Call = Call(op: Op, at: nat)

  /** The most keys one batch read asks for. */
  const BATCH_GET_LIMIT: nat := 100

  datatype WriteOutcome = Written | Duplicate

  datatype AdmissionClaim = First | Repeat

  datatype ReleaseOutcome = Advanced | LostRace

  function ReadCounters(c: Counters): Counters
  {
    c.(queueCounter := ReadU64(c.queueCounter))
  }

  ghost predicate Registered(w: World, id: RequestId) { id in w.positions || id in w.prequeue }

  /** What a block claim leaves: position `start + i` is claimed for the i-th id. */
  ghost predicate BlockHeld(w: World, start: nat, ids: seq<RequestId>)
  {
    forall p: nat :: start <= p < start + |ids| ==> p in w.allot && w.allot[p] == ids[p - start]
  }

  lemma BlockLands(w: World, ids: seq<RequestId>)
    ensures BlockHeld(AfterClaimBlock(w, ids), w.c.queueCounter + 1, ids)
    ensures AfterClaimBlock(w, ids).c.queueCounter == w.c.queueCounter + |ids|
  {
  }

  lemma BlockAt(w: World, start: nat, ids: seq<RequestId>, i: nat)
    requires BlockHeld(w, start, ids) && i < |ids|
    ensures start + i in w.allot && w.allot[start + i] == ids[i]
  {
    var p := start + i;
    assert p in w.allot && w.allot[p] == ids[p - start];
  }

  lemma BlockKept(w: World, w': World, start: nat, ids: seq<RequestId>)
    requires Grows(w, w') && BlockHeld(w, start, ids)
    ensures BlockHeld(w', start, ids)
  {
    hide Grows;
    ClaimsKept(w, w');
  }

  /** What a pre-queue block claim leaves: local index `start + i` of the shard is
      claimed for the i-th id. */
  ghost predicate SlotsHeld(w: World, shard: nat, start: nat, ids: seq<RequestId>)
  {
    forall l: nat :: start <= l < start + |ids| ==> (shard, l) in w.slots && w.slots[(shard, l)] == ids[l - start]
  }

  lemma SlotsLand(w: World, shard: nat, ids: seq<RequestId>)
    requires shard < |w.shards|
    ensures SlotsHeld(AfterClaimPrequeue(w, shard, ids), shard, w.shards[shard], ids)
    ensures AfterClaimPrequeue(w, shard, ids).shards[shard] == w.shards[shard] + |ids|
    ensures |AfterClaimPrequeue(w, shard, ids).shards| == |w.shards|
  {
  }

  lemma SlotAt(w: World, shard: nat, start: nat, ids: seq<RequestId>, i: nat)
    requires SlotsHeld(w, shard, start, ids) && i < |ids|
    ensures (shard, start + i) in w.slots && w.slots[(shard, start + i)] == ids[i]
  {
    var l := start + i;
    assert (shard, l) in w.slots && w.slots[(shard, l)] == ids[l - start];
  }

  lemma SlotsKept(w: World, w': World, shard: nat, start: nat, ids: seq<RequestId>)
    requires Grows(w, w') && SlotsHeld(w, shard, start, ids)
    ensures SlotsHeld(w', shard, start, ids)
  {
    hide Grows;
    ClaimsKept(w, w');
  }

  lemma AdmissionLands(w: World, me: nat, id: RequestId, position: nat, digest: Digest, acked: bool)
    ensures var w' := AfterClaimAdmission(w, me, id, position, digest, acked);
            && id in Admitted(w')
            && w'.positions == (if id in w.positions && w.positions[id].admitted then w.positions
                                else w.positions[id := PositionRow(position, true,
                                                                   if id in w.positions then w.positions[id].digest else digest)])
            && (me in w'.tokens <==> ClaimsFirst(w, id) || !acked || me in w.tokens)
  {
  }

  lemma ControlKeepsTokens(w: World, step: Step)
    requires IsControl(step.act)
    ensures Apply(w, step).tokens == w.tokens
  {
    hide AfterControl;
    ControlTouches(w, step.act);
    assert Apply(w, step) == AfterControl(w, step.act);
  }

  lemma TokenKeptByStep(w: World, step: Step, me: nat)
    requires step.actor != me
    ensures me in Apply(w, step).tokens <==> me in w.tokens
  {
    hide Pass.Decision, AfterRelease, BlockFor, SlotsFor, Folded, Sum;
    if IsControl(step.act) {
      hide *;
      ControlKeepsTokens(w, step);
    } else if step.act.WriteRelease? {
      ReleaseTouches(w, step);
    }
  }

  lemma GrowsRefl(w: World)
    ensures Grows(w, w)
  {
  }

  lemma ShapeHolds(w: World)
    requires Inv(w)
    ensures |w.shards| == |w.arrivals| == SHARDS
    ensures w.c.opening.None? ==> w.c.phase != Active
  {
  }

  lemma OpenedIsSeeded(w: World)
    requires Inv(w)
    ensures w.c.opening.Some? ==> w.seeded
  {
  }

  lemma SeededKept(w: World, w': World)
    requires Grows(w, w') && w.seeded
    ensures w'.seeded
  {
  }

  lemma ShardsKept(w: World, w': World)
    requires Grows(w, w')
    ensures |w.shards| == |w'.shards| && forall s :: 0 <= s < |w.shards| ==> w.shards[s] <= w'.shards[s]
  {
  }

  lemma ArrivalsKept(w: World, w': World)
    requires Grows(w, w')
    ensures |w.arrivals| == |w'.arrivals| && forall s :: 0 <= s < |w.arrivals| ==> w.arrivals[s] <= w'.arrivals[s]
  {
  }

  lemma QueueKept(w: World, w': World)
    requires Grows(w, w')
    ensures w.c.queueCounter <= w'.c.queueCounter && w.c.servingCounter <= w'.c.servingCounter
  {
  }

  lemma ClaimsKept(w: World, w': World)
    requires Grows(w, w')
    ensures Extends(w.allot, w'.allot) && Extends(w.slots, w'.slots) && Extends(w.prequeue, w'.prequeue)
    ensures w.c.opening.Some? ==> w'.c.opening == w.c.opening
    ensures forall id :: id in w.positions ==> id in w'.positions
    ensures |w.shards| == |w'.shards|
  {
  }

  lemma {:induction false} TokenKept(w: World, run: seq<Step>, me: nat)
    requires NotBy(run, me)
    ensures me in Exec(w, run).tokens <==> me in w.tokens
  {
    if run != [] {
      TokenKept(w, run[..|run| - 1], me);
      TokenKeptByStep(Exec(w, run[..|run| - 1]), run[|run| - 1], me);
    }
  }

  /** The item a read of the counters answers with. */
  function ItemOf(w: World): (item: Option<Counters>)
    ensures item.Some? <==> w.seeded
    ensures item.Some? ==> item.value.(queueCounter := w.c.queueCounter) == w.c
    ensures item.Some? ==> item.value.queueCounter == if w.c.queueCounter <= U64_MAX then w.c.queueCounter else 0
  {
    if w.seeded then Some(ReadCounters(w.c)) else None
  }

  function PositionRowOf(w: World, id: RequestId): Option<PositionRow>
  {
    if id in w.positions then Some(w.positions[id]) else None
  }

  function PreQueueRowOf(w: World, id: RequestId): Option<PreQueueRow>
  {
    if id in w.prequeue then Some(w.prequeue[id]) else None
  }

  /** The state the `k`-th call of a log reached. */
  ghost function Seen(start: World, trace: seq<Step>, log: seq<Call>, k: nat): World
  {
    if k < |log| && log[k].at <= |trace| then At(start, trace, log[k].at) else start
  }

  /** The state a call that may answer for an earlier moment answered for. */
  ghost function SeenBehind(start: World, trace: seq<Step>, log: seq<Call>, lag: nat -> nat, k: nat): World
  {
    if k < |log| && log[k].at <= |trace| then At(start, trace, log[k].at - Min(lag(k), log[k].at)) else start
  }

  /** What a call saw does not change as the trace and the log go on. */
  /** Call `k` sent this and nothing else, unless it never reached the store. */
  ghost predicate Sent(trace: seq<Step>, log: seq<Call>, fates: nat -> Fate, k: nat, step: Step)
  {
    k < |log| && (fates(k) != Unreached ==> log[k].at < |trace| && trace[log[k].at] == step)
  }

  lemma SentStays(trace: seq<Step>, log: seq<Call>, trace': seq<Step>, log': seq<Call>, fates: nat -> Fate, k: nat, step: Step)
    requires trace <= trace' && log <= log' && Sent(trace, log, fates, k, step)
    ensures Sent(trace', log', fates, k, step)
  {
  }

  lemma SeenStays(start: World, trace: seq<Step>, log: seq<Call>, trace': seq<Step>, log': seq<Call>, lag: nat -> nat, k: nat)
    requires trace <= trace' && log <= log' && k < |log| && log[k].at <= |trace|
    ensures Seen(start, trace', log', k) == Seen(start, trace, log, k)
    ensures SeenBehind(start, trace', log', lag, k) == SeenBehind(start, trace, log, lag, k)
  {
    AtStays(start, trace, trace', log[k].at);
    AtStays(start, trace, trace', log[k].at - Min(lag(k), log[k].at));
  }

  ghost predicate CountIs(counts: seq<u64>, i: int, shards: seq<nat>)
  {
    |shards| == SHARDS && 0 <= i < SHARDS && i < |counts| && counts[i] == shards[i]
  }

  /** The calls from `from` on each read the next shard's count. */
  ghost predicate CountsSeen(start: World, trace: seq<Step>, log: seq<Call>, from: nat, counts: seq<u64>)
  {
    forall k :: from <= k < from + |counts| ==> CountIs(counts, k - from, Seen(start, trace, log, k).shards)
  }

  lemma CountsSeenMore(start: World, trace: seq<Step>, log: seq<Call>, trace': seq<Step>, log': seq<Call>,
                       from: nat, counts: seq<u64>, next: u64)
    requires trace <= trace' && log <= log' && forall k :: 0 <= k < |log| ==> log[k].at <= |trace|
    requires from + |counts| == |log| && CountsSeen(start, trace, log, from, counts)
    requires CountIs(counts + [next], |counts|, Seen(start, trace', log', |log|).shards)
    ensures CountsSeen(start, trace', log', from, counts + [next])
  {
    forall k | from <= k < from + |counts| + 1
      ensures CountIs(counts + [next], k - from, Seen(start, trace', log', k).shards)
    {
      if k < |log| {
        SeenStays(start, trace, log, trace', log', n => 0, k);
        assert CountIs(counts, k - from, Seen(start, trace, log, k).shards);
      }
    }
  }

  /** The calls from `from` on each read the next arrival shard, perhaps behind. */
  ghost predicate ArrivalsSeen(start: World, trace: seq<Step>, log: seq<Call>, lag: nat -> nat, from: nat, counts: seq<u64>)
  {
    forall k :: from <= k < from + |counts| ==> CountIs(counts, k - from, SeenBehind(start, trace, log, lag, k).arrivals)
  }

  lemma ArrivalsSeenMore(start: World, trace: seq<Step>, log: seq<Call>, trace': seq<Step>, log': seq<Call>,
                         lag: nat -> nat, from: nat, counts: seq<u64>, next: u64)
    requires trace <= trace' && log <= log' && forall k :: 0 <= k < |log| ==> log[k].at <= |trace|
    requires from + |counts| == |log| && ArrivalsSeen(start, trace, log, lag, from, counts)
    requires CountIs(counts + [next], |counts|, SeenBehind(start, trace', log', lag, |log|).arrivals)
    ensures ArrivalsSeen(start, trace', log', lag, from, counts + [next])
  {
    forall k | from <= k < from + |counts| + 1
      ensures CountIs(counts + [next], k - from, SeenBehind(start, trace', log', lag, k).arrivals)
    {
      if k < |log| {
        SeenStays(start, trace, log, trace', log', lag, k);
        assert CountIs(counts, k - from, SeenBehind(start, trace, log, lag, k).arrivals);
      }
    }
  }

  lemma NothingSeen(start: World, trace: seq<Step>, log: seq<Call>, lag: nat -> nat)
    ensures CountsSeen(start, trace, log, |log|, []) && ArrivalsSeen(start, trace, log, lag, |log|, [])
  {
  }

  /** What a call saw, when the steps before it are known. */
  lemma SeenAt(start: World, trace: seq<Step>, log: seq<Call>, k: nat, before: seq<Step>)
    requires k < |log| && log[k].at == |before| && before <= trace
    ensures Seen(start, trace, log, k) == Exec(start, before)
  {
    assert trace[..|before|] == before;
  }

  lemma SeenNow(start: World, trace: seq<Step>, log: seq<Call>)
    requires log != [] && log[|log| - 1].at == |trace|
    ensures Seen(start, trace, log, |log| - 1) == Exec(start, trace)
  {
    assert trace[..|trace|] == trace;
  }

  lemma AtStays(start: World, trace: seq<Step>, trace': seq<Step>, i: nat)
    requires trace <= trace' && i <= |trace|
    ensures At(start, trace', i) == At(start, trace, i)
  {
    assert trace'[..i] == trace[..i];
  }

  ghost predicate AllAnswered(fates: nat -> Fate, from: nat, to: nat)
  {
    forall k :: from <= k < to ==> fates(k) == Answered
  }

  /** Every call of the log from `from` on was answered, and no counter has left 64
      bits: nothing a process does in between can fail. */
  ghost predicate Clean(fates: nat -> Fate, from: nat, to: nat, w: World)
  {
    && AllAnswered(fates, from, to)
    && w.c.queueCounter <= U64_MAX && forall s :: 0 <= s < |w.shards| ==> w.shards[s] <= U64_MAX
  }

  lemma CleanParts(fates: nat -> Fate, from: nat, mid: nat, to: nat, w: World, w': World)
    requires Clean(fates, from, to, w') && from <= mid <= to && Grows(w, w')
    ensures Clean(fates, from, mid, w) && Clean(fates, mid, to, w')
  {
    ShardsKept(w, w');
  }

  /** Every step of this process in the run sets the fail-open deadline to `until`. */
  ghost predicate OwnOnlySet(run: seq<Step>, me: nat, until: nat)
  {
    forall i :: 0 <= i < |run| && run[i].actor == me ==>
      (run[i].act.SetFailOpen? || run[i].act.SetFailOpenOnly?) && run[i].act.until == until
  }

  lemma OwnSetTail(before: seq<Step>, others: seq<Step>, own: seq<Step>, me: nat, until: nat)
    requires OwnOnlySet(before, me, until) && NotBy(others, me) && OwnOnlySet(own, me, until)
    ensures OwnOnlySet(before + (others + own), me, until)
    ensures own != [] && own[0].actor == me ==> !NotBy(before + (others + own), me)
  {
    if own != [] && own[0].actor == me {
      assert (before + (others + own))[|before| + |others|].actor == me;
    }
  }

  ghost predicate FromOthers(others: (nat, World) -> seq<Step>, step: Step)
  {
    exists k, w :: step in others(k, w)
  }

  /** Every step of a trace is the process's own or one of the others', and every
      call of its log is within the trace. */
  ghost predicate Attributed(me: nat, others: (nat, World) -> seq<Step>, trace: seq<Step>, log: seq<Call>)
  {
    && (forall i :: 0 <= i < |trace| ==> trace[i].actor == me || FromOthers(others, trace[i]))
    && (forall k :: 0 <= k < |log| ==> log[k].at <= |trace|)
  }

  lemma AttributedOthers(me: nat, others: (nat, World) -> seq<Step>, trace: seq<Step>, log: seq<Call>, k: nat, w: World, op: Op)
    requires Attributed(me, others, trace, log)
    ensures var longer := trace + others(k, w); Attributed(me, others, longer, log + [Call(op, |longer|)])
  {
    var longer := trace + others(k, w);
    forall i | 0 <= i < |longer|
      ensures longer[i].actor == me || FromOthers(others, longer[i])
    {
      if i >= |trace| {
        assert longer[i] in others(k, w);
      }
    }
  }

  lemma AttributedOwn(me: nat, others: (nat, World) -> seq<Step>, trace: seq<Step>, log: seq<Call>, act: Action)
    requires Attributed(me, others, trace, log)
    ensures Attributed(me, others, trace + [Step(me, act)], log)
  {
  }

  class Store {
    /** The process making the calls. */
    const me: nat
    const start: World
    /** What other processes do before this process's `k`-th call lands. */
    const others: (nat, World) -> seq<Step>
    const fates: nat -> Fate
    /** How far behind an eventually consistent read may be, in steps. */
    const lag: nat -> nat
    /** Whether a batch read drops a key. */
    const dropped: (nat, RequestId) -> bool

    var trace: seq<Step>
    var world: World
    var log: seq<Call>

    constructor (me: nat, start: World, others: (nat, World) -> seq<Step>, fates: nat -> Fate,
                 lag: nat -> nat, dropped: (nat, RequestId) -> bool)
      requires Fresh(start)
      requires forall k, w :: Inv(w) ==> Legal(w, others(k, w)) && NotBy(others(k, w), me)
      ensures Valid() && world == start && trace == [] && log == []
      ensures this.me == me && this.start == start && this.others == others && this.fates == fates
      ensures this.lag == lag && this.dropped == dropped
    {
      this.me, this.start, this.others, this.fates, this.lag, this.dropped := me, start, others, fates, lag, dropped;
      trace, world, log := [], start, [];
      FreshHolds(start);
    }

    /** The world is what the trace made of a fresh event, every step of the trace
        was one its process could take, the steps that are not this process's are
        the others', and the others keep playing by the rules. */
    ghost predicate Valid()
      reads this
    {
      && Fresh(start) && Legal(start, trace) && world == Exec(start, trace) && Inv(world)
      && (forall k, w :: Inv(w) ==> Legal(w, others(k, w)) && NotBy(others(k, w), me))
      && Attributed(me, others, trace, log)
    }

    lemma Reached()
      requires Valid()
      ensures Reachable(world)
    {
    }

    /** What this process may rely on between two of its own states. */
    twostate predicate Since()
      reads this
    {
      Grows(old(world), world) && old(trace) <= trace && old(log) <= log
    }

    /** One call was made: the others' steps before it, then `own`. */
    twostate predicate Called(op: Op, own: seq<Step>)
      reads this
    {
      && trace == old(trace) + others(|old(log)|, old(world)) + own
      && log == old(log) + [Call(op, |old(trace)| + |others(|old(log)|, old(world))|)]
    }

    /** The state this process's `k`-th call reached. */
    ghost function Saw(k: nat): World
      reads this
    {
      Seen(start, trace, log, k)
    }

    /** The state its `k`-th call answered for, if it may be behind. */
    ghost function SawBehind(k: nat): World
      reads this
    {
      SeenBehind(start, trace, log, lag, k)
    }

    /** The steps this process adds to the trace with a call of the given fate. */
    function Own(act: Action, fate: Fate): seq<Step>
    {
      if fate == Unreached then [] else [Step(me, act)]
    }

    /** The other processes' steps before a call lands. */
    method Interfere(op: Op) returns (fate: Fate)
      requires Valid()
      modifies this
      ensures Valid() && Since() && Called(op, [])
      ensures fate == fates(|old(log)|)
      ensures Saw(|old(log)|) == world
      ensures me in world.tokens <==> me in old(world).tokens
    {
      hide Inv, Grows, Attributed, Fresh, Seen, Legal, Exec;
      var steps := others(|log|, world);
      ExecAppend(start, trace, steps);
      RunKeepsInv(world, steps);
      TokenKept(world, steps, me);
      fate := fates(|log|);
      AttributedOthers(me, others, trace, log, |log|, world, op);
      trace, world := trace + steps, Exec(world, steps);
      log := log + [Call(op, |trace|)];
      SeenNow(start, trace, log);
    }

    /** This process's own step landing. */
    method Land(act: Action)
      requires Valid() && Enabled(world, Step(me, act))
      modifies this
      ensures Valid() && Since()
      ensures world == Apply(old(world), Step(me, act)) && trace == old(trace) + [Step(me, act)]
      ensures log == old(log)
      ensures forall k :: 0 <= k < |log| ==> Saw(k) == old(Saw(k))
    {
      hide Inv, Grows, Attributed, Fresh, Seen, Legal, Exec;
      Stored();
      AttributedOwn(me, others, trace, log, act);
      StepKeepsInv(world, Step(me, act));
      ExecOne(world, Step(me, act));
      ExecAppend(start, trace, [Step(me, act)]);
      ghost var was := trace;
      trace, world := trace + [Step(me, act)], Apply(world, Step(me, act));
      forall k | 0 <= k < |log|
        ensures Saw(k) == old(Saw(k))
      {
        SeenStays(start, was, log, trace, log, lag, k);
      }
    }

    /** The state the tables were in at the earlier moment the last call answers for,
        for reads that are not strongly consistent. */
    method Past() returns (w: World)
      requires Valid() && log != [] && log[|log| - 1].at == |trace|
      ensures w == SawBehind(|log| - 1) && Grows(w, world) && Inv(w)
    {
      hide Inv, Grows, Attributed, Legal, Exec, Fresh;
      var k := |trace| - Min(lag(|log| - 1), |trace|);
      assert trace == trace[..k] + trace[k..];
      ExecAppend(start, trace[..k], trace[k..]);
      FreshHolds(start);
      RunKeepsInv(start, trace[..k]);
      RunKeepsInv(Exec(start, trace[..k]), trace[k..]);
      w := Exec(start, trace[..k]);
    }

    lemma OthersOnly()
      requires Valid()
      ensures Inv(world) && NotBy(others(|log|, world), me)
      ensures |world.shards| == |world.arrivals| == SHARDS
    {
    }

    lemma Stored()
      requires Valid()
      ensures world == Exec(start, trace) && Inv(world) && Inv(start) && Legal(start, trace)
      ensures forall k :: 0 <= k < |log| ==> log[k].at <= |trace|
    {
      hide Legal, Exec, Inv;
      FreshHolds(start);
    }

    lemma Attribution()
      requires Valid()
      ensures Attributed(me, others, trace, log)
    {
      hide Legal, Exec, Inv;
    }

    // ---- Joins ---------------------------------------------------------------

    /** A strongly consistent read of the `Counters` item. */
    method LoadCounters() returns (r: Result<Option<Counters>, StoreError>)
      requires Valid()
      modifies this
      ensures Valid() && Since() && Called(GetCounters, []) && Saw(|old(log)|) == world
      ensures r == if fates(|old(log)|) == Answered then Ok(ItemOf(world)) else Err(Backend)
      ensures me in world.tokens <==> me in old(world).tokens
    {
      hide Inv, Grows, Exec, Legal;
      var fate := Interfere(GetCounters);
      r := if fate == Answered then Ok(ItemOf(world)) else Err(Backend);
    }

    /** `ADD queue_counter`, answering with the end of the claimed block. An end
        too wide for 64 bits is an error although the addition landed. */
    method ClaimBlock(ids: seq<RequestId>) returns (r: Result<u64, StoreError>)
      requires Valid() && ids != [] && world.c.opening.Some?
      modifies this
      ensures Valid() && Since() && Called(Update, Own(QueueProtocol.ClaimBlock(ids), fates(|old(log)|)))
      ensures r.Ok? ==> |ids| <= r.value == world.c.queueCounter == Saw(|old(log)|).c.queueCounter + |ids|
      ensures r.Ok? ==> BlockHeld(world, r.value - |ids| + 1, ids)
      ensures r.Err? <==> fates(|old(log)|) != Answered || world.c.queueCounter > U64_MAX
    {
      hide Inv, Grows, Exec, Legal, BlockHeld, Extends, AfterClaimBlock;
      var fate := Interfere(Update);
      ghost var at := world;
      ClaimsKept(old(world), at);
      if fate == Unreached {
        return Err(Backend);
      }
      Land(QueueProtocol.ClaimBlock(ids));
      BlockLands(at, ids);
      GrowsTrans(old(world), at, world);
      var end := ParseU64(world.c.queueCounter);
      if fate == LostReply || end.None? {
        return Err(Backend);
      }
      r := Ok(end.value);
    }

    /** One `Positions` row, written only if the id has none. */
    method PutPosition(id: RequestId, position: nat, digest: Digest) returns (r: Result<WriteOutcome, StoreError>)
      requires Valid() && position in world.allot && world.allot[position] == id
      modifies this
      ensures Valid() && Since()
      ensures Called(Update, Own(QueueProtocol.PutPosition(id, position, digest), fates(|old(log)|)))
      ensures r.Err? <==> fates(|old(log)|) != Answered
      ensures r.Ok? ==> id in world.positions
      ensures r == Ok(Written) ==> world.positions[id] == PositionRow(position, false, digest)
      ensures r == Ok(Written) <==> fates(|old(log)|) == Answered && id !in Saw(|old(log)|).positions
    {
      hide Inv, Grows, Exec, Legal;
      var fate := Interfere(Update);
      ghost var at := world;
      ClaimsKept(old(world), at);
      if fate == Unreached {
        return Err(Backend);
      }
      var outcome := if id in world.positions then Duplicate else Written;
      Land(QueueProtocol.PutPosition(id, position, digest));
      GrowsTrans(old(world), at, world);
      r := if fate == LostReply then Err(Backend) else Ok(outcome);
    }

    /** `ADD` on one shard item, answering with the first local index claimed. */
    method ClaimPrequeueBlock(shard: nat, ids: seq<RequestId>) returns (r: Result<u64, StoreError>)
      requires Valid() && ids != [] && shard < SHARDS
      modifies this
      ensures Valid() && Since() && Called(Update, Own(ClaimPrequeue(shard, ids), fates(|old(log)|)))
      ensures r.Ok? ==> r.value + |ids| <= U64_MAX
      ensures r.Ok? ==> SlotsHeld(world, shard, r.value, ids)
      ensures |world.shards| == SHARDS && (r.Err? <==> fates(|old(log)|) != Answered || world.shards[shard] > U64_MAX)
    {
      hide Inv, Grows, Exec, Legal, SlotsHeld, AfterClaimPrequeue;
      var fate := Interfere(Update);
      ghost var at := world;
      ClaimsKept(old(world), at);
      ShapeHolds(at);
      if fate == Unreached {
        return Err(Backend);
      }
      SlotsLand(at, shard, ids);
      Land(ClaimPrequeue(shard, ids));
      GrowsTrans(old(world), at, world);
      var end := ParseU64(world.shards[shard]);
      if fate == LostReply || end.None? {
        return Err(Backend);
      }
      r := FirstLocalIndex(end.value, |ids|);
    }

    /** The shard's count after the addition minus the size just added; an
        underflow is an error, not a saturated index. */
    static function FirstLocalIndex(countAfterAdd: u64, count: nat): Result<u64, StoreError>
    {
      if countAfterAdd >= count then Ok(countAfterAdd - count) else Err(Backend)
    }

    /** One `PreQueue` row, written only if the id has none. */
    method PutPrequeue(id: RequestId, shard: nat, localIndex: nat, digest: Digest)
      returns (r: Result<WriteOutcome, StoreError>)
      requires Valid() && (shard, localIndex) in world.slots && world.slots[(shard, localIndex)] == id
      modifies this
      ensures Valid() && Since()
      ensures Called(Update, Own(QueueProtocol.PutPrequeue(id, shard, localIndex, digest), fates(|old(log)|)))
      ensures r.Err? <==> fates(|old(log)|) != Answered
      ensures r.Ok? ==> id in world.prequeue
      ensures r == Ok(Written) ==> world.prequeue[id] == PreQueueRow(shard, localIndex, digest)
      ensures r == Ok(Written) <==> fates(|old(log)|) == Answered && id !in Saw(|old(log)|).prequeue
    {
      hide Inv, Grows, Exec, Legal;
      var fate := Interfere(Update);
      ghost var at := world;
      ClaimsKept(old(world), at);
      if fate == Unreached {
        return Err(Backend);
      }
      var outcome := if id in world.prequeue then Duplicate else Written;
      Land(QueueProtocol.PutPrequeue(id, shard, localIndex, digest));
      GrowsTrans(old(world), at, world);
      r := if fate == LostReply then Err(Backend) else Ok(outcome);
    }

    /** One chunk of a consistent batch read; a key it drops is simply absent. */
    method RegisteredChunk(ids: seq<RequestId>) returns (r: Result<set<RequestId>, StoreError>)
      requires Valid()
      modifies this
      ensures Valid() && Since() && Called(GetRegistered, [])
      ensures r.Err? <==> fates(|old(log)|) != Answered
      ensures r.Ok? ==> r.value == set id | id in ids && id in world.prequeue && !dropped(|old(log)|, id)
    {
      hide Inv, Grows, Exec, Legal;
      var k := |log|;
      var fate := Interfere(GetRegistered);
      if fate != Answered {
        return Err(Backend);
      }
      r := Ok(set id | id in ids && id in world.prequeue && !dropped(k, id));
    }

    /** Which of the ids already registered, read a hundred keys at a time: every
        one that was, but for the keys a chunk dropped. */
    method RegisteredIds(ids: seq<RequestId>) returns (r: Result<set<RequestId>, StoreError>)
      requires Valid()
      modifies this
      ensures Valid() && Since()
      ensures NotBy(trace[|old(trace)|..], me)
      ensures r.Ok? ==> forall id :: id in r.value ==> id in ids && id in world.prequeue
      ensures r.Ok? ==> forall i :: 0 <= i < |ids| && ids[i] in old(world).prequeue && !dropped(|old(log)| + i / 100, ids[i]) ==> ids[i] in r.value
      ensures r.Ok? <==> AllAnswered(fates, |old(log)|, |log|)
      ensures r.Ok? ==> |log| == |old(log)| + (|ids| + 99) / 100
    {
      hide Inv, Grows, Exec, Legal, Valid;
      var found: set<RequestId> := {};
      var i := 0;
      GrowsRefl(world);
      while i < |ids|
        invariant Valid() && Since() && 0 <= i <= |ids|
        invariant NotBy(trace[|old(trace)|..], me)
        invariant forall id :: id in found ==> id in ids && id in world.prequeue
        invariant |log| == |old(log)| + (i + 99) / BATCH_GET_LIMIT && (i % BATCH_GET_LIMIT == 0 || i == |ids|)
        invariant AllAnswered(fates, |old(log)|, |log|)
        invariant forall j :: 0 <= j < i && ids[j] in old(world).prequeue && !dropped(|old(log)| + j / BATCH_GET_LIMIT, ids[j]) ==> ids[j] in found
      {
        ghost var before, was, call := world, trace, |log|;
        OthersOnly();
        var next := Min(i + BATCH_GET_LIMIT, |ids|);
        var chunk := RegisteredChunk(ids[i..next]);
        GrowsTrans(old(world), before, world);
        ClaimsKept(before, world);
        assert trace[|old(trace)|..] == was[|old(trace)|..] + trace[|was|..];
        if chunk.Err? {
          assert fates(call) != Answered;
          return Err(Backend);
        }
        ClaimsKept(old(world), world);
        forall j | i <= j < next && ids[j] in old(world).prequeue && !dropped(|old(log)| + j / BATCH_GET_LIMIT, ids[j])
          ensures ids[j] in chunk.value
        {
          assert ids[i..next][j - i] == ids[j] && j / BATCH_GET_LIMIT == i / BATCH_GET_LIMIT;
        }
        found := found + chunk.value;
        i := next;
      }
      r := Ok(found);
    }

    // ---- The open ------------------------------------------------------------

    /** One shard's count; one too wide for 64 bits is an error. */
    method ReadShardCount(shard: nat) returns (r: Result<u64, StoreError>)
      requires Valid() && shard < SHARDS
      modifies this
      ensures Valid() && Since() && Called(GetShardCount, []) && NotBy(trace[|old(trace)|..], me)
      ensures Saw(|old(log)|) == world && |world.shards| == SHARDS
      ensures r == if fates(|old(log)|) == Answered && world.shards[shard] <= U64_MAX then Ok(world.shards[shard]) else Err(Backend)
    {
      hide Inv, Grows, Exec, Legal;
      OthersOnly();
      var fate := Interfere(GetShardCount);
      OthersOnly();
      assert trace[|old(trace)|..] == others(|old(log)|, old(world));
      r := if fate == Answered && world.shards[shard] <= U64_MAX then Ok(world.shards[shard]) else Err(Backend);
    }

    /** The ten shard counts. Each shard is read at its own moment, so the counts
        need not have held together; each is at most what the shard holds now. It
        fails only at a read that failed, or at a count that leaves 64 bits. */
    method ReadShardCounts() returns (r: Result<seq<u64>, StoreError>)
      requires Valid()
      modifies this
      ensures Valid() && Since()
      ensures NotBy(trace[|old(trace)|..], me)
      ensures |old(log)| < |log| <= |old(log)| + SHARDS
      ensures forall k :: |old(log)| <= k < |log| ==> log[k].op == GetShardCount
      ensures r.Ok? ==> |log| == |old(log)| + SHARDS && AllAnswered(fates, |old(log)|, |log|)
      ensures r.Ok? ==> |r.value| == SHARDS && BelowCounts(r.value, world.shards) && CountsSeen(start, trace, log, |old(log)|, r.value)
      ensures r.Err? ==> !AllAnswered(fates, |old(log)|, |log|) || exists s :: 0 <= s < |world.shards| && world.shards[s] > U64_MAX
    {
      hide Inv, Grows, Exec, Legal, Valid, Seen, CountsSeen;
      var counts: seq<u64> := [];
      GrowsRefl(world);
      OthersOnly();
      NothingSeen(start, trace, log, lag);
      while |counts| < SHARDS
        invariant Valid() && Since() && |counts| <= SHARDS && |world.shards| == SHARDS
        invariant NotBy(trace[|old(trace)|..], me)
        invariant |log| == |old(log)| + |counts| && AllAnswered(fates, |old(log)|, |log|)
        invariant forall k :: |old(log)| <= k < |log| ==> log[k].op == GetShardCount
        invariant forall s :: 0 <= s < |counts| ==> counts[s] <= world.shards[s]
        invariant CountsSeen(start, trace, log, |old(log)|, counts)
        decreases SHARDS - |counts|
      {
        ghost var before, was, calls := world, trace, log;
        Stored();
        var count := ReadShardCount(|counts|);
        GrowsTrans(old(world), before, world);
        ShardsKept(before, world);
        assert trace[|old(trace)|..] == was[|old(trace)|..] + trace[|was|..];
        if count.Err? {
          assert fates(|calls|) != Answered || world.shards[|counts|] > U64_MAX;
          return Err(Backend);
        }
        CountsSeenMore(start, was, calls, trace, log, |old(log)|, counts, count.value);
        counts := counts + [count.value];
      }
      r := Ok(counts);
    }

    /** The one conditional write of the open; `committed` says whether it was this
        call that opened the event. */
    method WriteOpen(perm: seq<nat>, counts: seq<nat>) returns (r: Result<bool, StoreError>, ghost committed: bool)
      requires Valid() && |counts| == SHARDS
      requires Enabled(world, Step(me, QueueProtocol.WriteOpen(perm, counts)))
      modifies this
      ensures Valid() && Since()
      ensures Called(Update, Own(QueueProtocol.WriteOpen(perm, counts), fates(|old(log)|)))
      ensures committed <==> CommittedBy(start, trace, |old(trace)|, me)
      ensures committed ==> world.c.opening == Some(OpenValues(perm, Folded(counts))) && world.c.phase == Active
      ensures committed ==> old(world).c.opening.None?
      ensures committed <==> fates(|old(log)|) != Unreached && OpenCommits(Saw(|old(log)|))
      ensures r == if fates(|old(log)|) != Answered then Err(Backend) else Ok(committed)
    {
      hide Inv, Grows, Exec, Legal, CommittedBy, Seen;
      OthersOnly();
      var fate := Interfere(Update);
      ghost var at, before := world, trace;
      assert before[|old(trace)|..] == others(|old(log)|, old(world));
      ClaimsKept(old(world), at);
      ShardsKept(old(world), at);
      if fate == Unreached {
        NotByNotCommitted(start, trace, |old(trace)|, me);
        return Err(Backend), false;
      }
      var won := OpenCommits(world);
      committed := won;
      Land(QueueProtocol.WriteOpen(perm, counts));
      GrowsTrans(old(world), at, world);
      CommittedByLast(start, before, |old(trace)|, Step(me, QueueProtocol.WriteOpen(perm, counts)));
      r := if fate == LostReply then Err(Backend) else Ok(won);
    }

    /** Whether the seed is present. Not a consistent read, so it may answer for an
        earlier moment. */
    method IsAlreadyOpen() returns (r: Result<bool, StoreError>)
      requires Valid()
      modifies this
      ensures Valid() && Since() && Called(GetSeed, []) && NotBy(trace[|old(trace)|..], me)
      ensures r == if fates(|old(log)|) == Answered then Ok(SawBehind(|old(log)|).c.opening.Some?) else Err(Backend)
      ensures r == Ok(true) ==> world.c.opening.Some?
    {
      hide Inv, Grows, Exec, Legal;
      OthersOnly();
      var fate := Interfere(GetSeed);
      assert trace[|old(trace)|..] == others(|old(log)|, old(world));
      var seen := Past();
      ClaimsKept(seen, world);
      r := if fate == Answered then Ok(seen.c.opening.Some?) else Err(Backend);
    }

    // ---- The control plane -----------------------------------------------------

    /** The control state, by a read that may answer for an earlier moment. */
    method LoadControl() returns (r: Result<Option<Counters>, StoreError>)
      requires Valid()
      modifies this
      ensures Valid() && Since() && Called(GetControl, []) && NotBy(trace[|old(trace)|..], me)
      ensures r == if fates(|old(log)|) == Answered then Ok(ItemOf(SawBehind(|old(log)|))) else Err(Backend)
      ensures r.Ok? && r.value.Some? ==> world.seeded
      ensures r.Ok? && r.value.Some? && r.value.value.opening.Some? ==> world.c.opening == r.value.value.opening
    {
      hide Inv, Grows, Exec, Legal;
      OthersOnly();
      var fate := Interfere(GetControl);
      assert trace[|old(trace)|..] == others(|old(log)|, old(world));
      var seen := Past();
      ClaimsKept(seen, world);
      if seen.seeded {
        SeededKept(seen, world);
      }
      r := if fate == Answered then Ok(ItemOf(seen)) else Err(Backend);
    }

    /** One guarded update of the `Counters` item by the operator. A refused guard
        is a conflict. */
    method Mutate(act: Action) returns (r: Result<(), StoreError>)
      requires Valid() && IsControl(act) && Enabled(world, Step(me, act))
      modifies this
      ensures Valid() && Since() && Called(Update, Own(act, fates(|old(log)|)))
      ensures Grows(old(world), Saw(|old(log)|))
      ensures var at := Saw(|old(log)|);
              && world == (if fates(|old(log)|) == Unreached then at else AfterControl(at, act))
              && r == (if fates(|old(log)|) != Answered then Err(Backend)
                       else if ControlCommits(at, act) then Ok(()) else Err(Conflict))
    {
      hide Inv, Grows, Exec, Legal, Seen;
      var fate := Interfere(Update);
      ghost var at := world;
      ClaimsKept(old(world), at);
      if fate == Unreached {
        return Err(Backend);
      }
      var commits := ControlCommits(world, act);
      Land(act);
      GrowsTrans(old(world), at, world);
      r := if fate == LostReply then Err(Backend) else if commits then Ok(()) else Err(Conflict);
    }

    lemma OwnSets(act: Action, fate: Fate, until: nat)
      requires (act.SetFailOpen? || act.SetFailOpenOnly?) && act.until == until
      ensures OwnOnlySet(Own(act, fate), me, until) && OwnOnlySet([], me, until)
    {
    }

    /** Engages or clears fail-open: the guarded write that also stamps, and when a
        newer anchor refuses it, the deadline alone. */
    method SetFailOpenUntil(until: nat, nowMs: nat) returns (r: Result<(), StoreError>)
      requires Valid()
      modifies this
      ensures Valid() && Since()
      ensures r.Ok? ==> world.c.failOpenUntil == until && world.seeded
      ensures r.Ok? ==> !NotBy(trace[|old(trace)|..], me)
      ensures r != Err(Conflict)
      ensures r.Err? ==> !AllAnswered(fates, |old(log)|, |log|)
      ensures OwnOnlySet(trace[|old(trace)|..], me, until)
    {
      hide Inv, Grows, Exec, Legal, OwnOnlySet, NotBy, Apply, Valid, Seen;
      OthersOnly();
      OwnSets(SetFailOpen(until, nowMs), fates(|log|), until);
      r := Mutate(SetFailOpen(until, nowMs));
      ghost var tail := others(|old(log)|, old(world)) + Own(SetFailOpen(until, nowMs), fates(|old(log)|));
      OwnSetTail([], others(|old(log)|, old(world)), Own(SetFailOpen(until, nowMs), fates(|old(log)|)), me, until);
      assert trace[|old(trace)|..] == [] + tail == tail;
      if r == Err(Conflict) {
        ghost var before, was := world, |log|;
        OthersOnly();
        OwnSets(SetFailOpenOnly(until), fates(|log|), until);
        r := Mutate(SetFailOpenOnly(until));
        GrowsTrans(old(world), before, world);
        OwnSetTail(tail, others(was, before), Own(SetFailOpenOnly(until), fates(was)), me, until);
        assert trace[|old(trace)|..] == tail + (others(was, before) + Own(SetFailOpenOnly(until), fates(was)));
      }
    }

    // ---- Releases ----------------------------------------------------------------

    /** One arrival shard, by a read that may answer for an earlier moment: it is
        never more than the shard holds now. */
    method ReadArrival(shard: nat) returns (r: Result<u64, StoreError>)
      requires Valid() && shard < SHARDS
      modifies this
      ensures Valid() && Since() && Called(GetArrivals, []) && NotBy(trace[|old(trace)|..], me)
      ensures |SawBehind(|old(log)|).arrivals| == |world.arrivals| == SHARDS
      ensures SawBehind(|old(log)|).arrivals[shard] <= world.arrivals[shard]
      ensures var seen := SawBehind(|old(log)|).arrivals[shard];
              r == if fates(|old(log)|) == Answered && seen <= U64_MAX then Ok(seen) else Err(Backend)
    {
      hide Inv, Grows, Exec, Legal, SawBehind;
      OthersOnly();
      var fate := Interfere(GetArrivals);
      var seen := Past();
      OthersOnly();
      ArrivalsKept(seen, world);
      assert trace[|old(trace)|..] == others(|old(log)|, old(world));
      r := if fate == Answered && seen.arrivals[shard] <= U64_MAX then Ok(seen.arrivals[shard]) else Err(Backend);
    }

    /** The ten arrival counts, each by its own read: none is more than the shard
        holds now. */
    method ReadArrivals() returns (r: Result<seq<u64>, StoreError>)
      requires Valid()
      modifies this
      ensures Valid() && Since()
      ensures NotBy(trace[|old(trace)|..], me)
      ensures |old(log)| < |log| <= |old(log)| + SHARDS
      ensures r.Ok? ==> |log| == |old(log)| + SHARDS && |r.value| == SHARDS
      ensures r.Ok? ==> BelowCounts(r.value, world.arrivals) && ArrivalsSeen(start, trace, log, lag, |old(log)|, r.value)
      ensures r.Err? ==> !AllAnswered(fates, |old(log)|, |log|) || exists s :: 0 <= s < |world.arrivals| && world.arrivals[s] > U64_MAX
    {
      hide Inv, Grows, Exec, Legal, Valid, SeenBehind, ArrivalsSeen;
      var counts: seq<u64> := [];
      GrowsRefl(world);
      OthersOnly();
      NothingSeen(start, trace, log, lag);
      while |counts| < SHARDS
        invariant Valid() && Since() && |counts| <= SHARDS && |world.arrivals| == SHARDS
        invariant NotBy(trace[|old(trace)|..], me)
        invariant |log| == |old(log)| + |counts|
        invariant forall s :: 0 <= s < |counts| ==> counts[s] <= world.arrivals[s]
        invariant ArrivalsSeen(start, trace, log, lag, |old(log)|, counts)
        decreases SHARDS - |counts|
      {
        ghost var before, was, calls := world, trace, log;
        Stored();
        var count := ReadArrival(|counts|);
        GrowsTrans(old(world), before, world);
        ArrivalsKept(before, world);
        assert trace[|old(trace)|..] == was[|old(trace)|..] + trace[|was|..];
        if count.Err? {
          assert fates(|calls|) != Answered || world.arrivals[|counts|] > U64_MAX;
          return Err(Backend);
        }
        ArrivalsSeenMore(start, was, calls, trace, log, lag, |old(log)|, counts, count.value);
        counts := counts + [count.value];
      }
      r := Ok(counts);
    }

    /** The compare-and-set on the cursor, with the baselines it persists. */
    method WriteRelease(pass: Pass) returns (r: Result<ReleaseOutcome, StoreError>)
      requires Valid() && world.c.opening.Some?
      requires pass.inputs.queueCounter <= world.c.queueCounter && ReadableRate(pass.prev)
      modifies this
      ensures Valid() && Since()
      ensures Called(Update, Own(QueueProtocol.WriteRelease(pass, fates(|old(log)|) == Answered), fates(|old(log)|)))
      ensures Grows(old(world), Saw(|old(log)|))
      ensures var at := Saw(|old(log)|);
              && world == (if fates(|old(log)|) == Unreached then at
                           else AfterRelease(at, me, pass.Decision(), fates(|old(log)|) == Answered))
              && r == (if fates(|old(log)|) != Answered then Err(Backend)
                       else if at.c.servingCounter == pass.inputs.servingCounter then Ok(Advanced) else Ok(LostRace))
    {
      hide Inv, Grows, Exec, Legal, Pass.Decision, Seen;
      var fate := Interfere(Update);
      ghost var at := world;
      ClaimsKept(old(world), at);
      QueueKept(old(world), at);
      if fate == Unreached {
        return Err(Backend);
      }
      var outcome := if world.c.servingCounter == pass.inputs.servingCounter then Advanced else LostRace;
      Land(QueueProtocol.WriteRelease(pass, fate == Answered));
      GrowsTrans(old(world), at, world);
      r := if fate == LostReply then Err(Backend) else Ok(outcome);
    }

    // ---- Admissions --------------------------------------------------------------

    /** A strongly consistent read of the id's `Positions` row. */
    method LoadPosition(id: RequestId) returns (r: Result<Option<PositionRow>, StoreError>)
      requires Valid()
      modifies this
      ensures Valid() && Since() && Called(GetPosition, []) && NotBy(trace[|old(trace)|..], me)
      ensures Saw(|old(log)|) == world
      ensures r == if fates(|old(log)|) == Answered then Ok(PositionRowOf(world, id)) else Err(Backend)
      ensures me in world.tokens <==> me in old(world).tokens
    {
      hide Inv, Grows, Exec, Legal;
      OthersOnly();
      var fate := Interfere(GetPosition);
      assert trace[|old(trace)|..] == others(|old(log)|, old(world));
      r := if fate == Answered then Ok(PositionRowOf(world, id)) else Err(Backend);
    }

    /** The id's `PreQueue` row, by a read that may answer for an earlier moment; a
        row it finds is still the one stored. */
    method LoadPrequeue(id: RequestId) returns (r: Result<Option<PreQueueRow>, StoreError>)
      requires Valid()
      modifies this
      ensures Valid() && Since() && Called(GetPreQueueRow, []) && NotBy(trace[|old(trace)|..], me)
      ensures r == if fates(|old(log)|) == Answered then Ok(PreQueueRowOf(SawBehind(|old(log)|), id)) else Err(Backend)
      ensures r.Ok? && r.value.Some? ==> id in world.prequeue && world.prequeue[id] == r.value.value
      ensures me in world.tokens <==> me in old(world).tokens
    {
      hide Inv, Grows, Exec, Legal;
      OthersOnly();
      var fate := Interfere(GetPreQueueRow);
      assert trace[|old(trace)|..] == others(|old(log)|, old(world));
      var seen := Past();
      ClaimsKept(seen, world);
      r := if fate == Answered then Ok(PreQueueRowOf(seen, id)) else Err(Backend);
    }

    /** The once-only admission claim. An unanswered claim counts as an error, and
        like a first claim leaves this process owing an arrival. */
    method ClaimAdmission(id: RequestId, position: nat, digest: Digest) returns (r: Result<AdmissionClaim, StoreError>)
      requires Valid() && Owns(world, id, position) && position < world.c.servingCounter
      modifies this
      ensures Valid() && Since()
      ensures Called(Update, [Step(me, if fates(|old(log)|) == Unreached then ClaimUnreached
                                       else QueueProtocol.ClaimAdmission(id, position, digest, fates(|old(log)|) == Answered))])
      ensures r == if fates(|old(log)|) != Answered then Err(Backend)
                   else if ClaimsFirst(Saw(|old(log)|), id) then Ok(First) else Ok(Repeat)
      ensures fates(|old(log)|) != Unreached ==> id in Admitted(world)
      ensures fates(|old(log)|) != Unreached ==>
                var rows := Saw(|old(log)|).positions;
                world.positions == if id in rows && rows[id].admitted then rows
                                   else rows[id := PositionRow(position, true, if id in rows then rows[id].digest else digest)]
      ensures me in world.tokens <==> r != Ok(Repeat) || me in old(world).tokens
    {
      hide Inv, Grows, Exec, Legal, Owns, AfterClaimAdmission, Admitted;
      var fate := Interfere(Update);
      ghost var at := world;
      OwnsPersists(old(world), at, id, position);
      QueueKept(old(world), at);
      if fate == Unreached {
        Land(ClaimUnreached);
        GrowsTrans(old(world), at, world);
        return Err(Backend);
      }
      var claim := if ClaimsFirst(world, id) then First else Repeat;
      AdmissionLands(at, me, id, position, digest, fate == Answered);
      Land(QueueProtocol.ClaimAdmission(id, position, digest, fate == Answered));
      GrowsTrans(old(world), at, world);
      r := if fate == LostReply then Err(Backend) else Ok(claim);
    }

    /** One arrival added to a shard. */
    method RecordArrival(shard: nat) returns (r: Result<(), StoreError>)
      requires Valid() && shard < SHARDS && me in world.tokens
      modifies this
      ensures Valid() && Since() && Called(Update, Own(QueueProtocol.RecordArrival(shard), fates(|old(log)|)))
      ensures me in world.tokens <==> fates(|old(log)|) == Unreached
      ensures r == if fates(|old(log)|) == Answered then Ok(()) else Err(Backend)
      ensures var n := Saw(|old(log)|).arrivals;
              |n| == SHARDS && world.arrivals == if fates(|old(log)|) == Unreached then n else n[shard := n[shard] + 1]
    {
      hide Inv, Grows, Exec, Legal, Seen;
      var fate := Interfere(Update);
      ghost var at := world;
      ShapeHolds(at);
      if fate == Unreached {
        return Err(Backend);
      }
      Land(QueueProtocol.RecordArrival(shard));
      GrowsTrans(old(world), at, world);
      r := if fate == LostReply then Err(Backend) else Ok(());
    }
  }

  /** Call `w` was the last, and sent the stamp. */
  ghost predicate StampSent(store: Store, w: nat, nowMs: nat)
    reads store
  {
    && |store.log| == w + 1 && store.log[w].op == Update
    && (store.fates(w) != Unreached ==> store.world == AfterControl(store.Saw(w), Stamp(nowMs)))
  }
}
