/** The virtual queue as one state machine over the shared tables. Each step is
    one store call landing atomically; every Lambda, and the operator, acts on the
    event only through these steps. Fields marked as bookkeeping are not stored:
    they record who each index was claimed for, what is owed and what was moved,
    so that the guarantees can be stated. */
module QueueProtocol {
  import opened Common
  import opened Cohort
  import opened Permutation
  import opened Release

  type RequestId = string

  /** The digest of a visitor's possession secret. */
  type Digest = nat

  datatype Phase = Idle | PreQueue | Active | PostEvent | Maintenance

  datatype StoredControl = Admitting | Paused

  datatype AdmissionControl = Open | OnHold | FailOpen

  /** What the open publishes. The stored seed is represented by the permutation
      it selects: `perm[i]` is the position of registration index `i`. */
  datatype OpenValues = OpenValues(perm: seq<nat>, offsets: CohortOffsets)

  datatype Counters = Counters(
    phase: Phase,
    queueCounter: nat,
    servingCounter: u64,
    opening: Option<OpenValues>,
    lastServingCounter: u64,
    lastArrivalsTotal: u64,
    noShow: Option<real>,
    lastOpenPassAt: u64,
    targetRate: Option<u32>,
    control: StoredControl,
    failOpenUntil: nat,
    lastActionMs: Option<nat>)

  datatype PreQueueRow = PreQueueRow(shard: nat, localIndex: nat, digest: Digest)

  datatype PositionRow = PositionRow(position: nat, admitted: bool, digest: Digest)

  /** One release that landed: how far it moved the cursor, and whether the pass
      that made it was told so. */
  datatype Landed = Landed(actor: nat, amount: nat, acked: bool)

  /** `seeded` says whether the event's item exists, and `phased` whether it carries
      a phase. A control write to a missing item creates one without: it reads as
      idle, and no guard on the phase ever matches it. */
  datatype World = World(
    seeded: bool,
    phased: bool,
    c: Counters,
    shards: seq<nat>,
    prequeue: map<RequestId, PreQueueRow>,
    positions: map<RequestId, PositionRow>,
    arrivals: seq<nat>,
    // Bookkeeping.
    openedCounts: seq<nat>,
    slots: map<(nat, nat), RequestId>,
    allot: map<nat, RequestId>,
    tokens: set<nat>,
    claimErrors: nat,
    landed: seq<Landed>)

  datatype Edit =
    | SetRate(expected: Option<u32>, rate: u32)
    | SetMessage
    | SetControl(from: StoredControl, to: StoredControl)
    | SetStartsAt

  datatype Action =
    | SeedItem(phase: Phase, rate: u32)
    | ClaimBlock(ids: seq<RequestId>)
    | PutPosition(id: RequestId, position: nat, digest: Digest)
    | ClaimPrequeue(shard: nat, ids: seq<RequestId>)
    | PutPrequeue(id: RequestId, shard: nat, localIndex: nat, digest: Digest)
    | WriteOpen(perm: seq<nat>, counts: seq<nat>)
    | WriteRelease(pass: Pass, acked: bool)
    | ClaimAdmission(id: RequestId, position: nat, digest: Digest, acked: bool)
    | ClaimUnreached
    | RecordArrival(shard: nat)
    | SetPhase(from: Phase, to: Phase, nowMs: nat)
    | ForceMaintenance(from: Phase, nowMs: nat)
    | Debounced(edit: Edit, nowMs: nat)
    | Stamp(nowMs: nat)
    | SetFailOpen(until: nat, nowMs: nat)
    | SetFailOpenOnly(until: nat)

  /** A step and the process that took it. */
  datatype Step = Step(actor: nat, act: Action)

  const DEBOUNCE_MILLIS: nat := 2000

  function Resolve(stored: StoredControl, failOpenUntil: nat, now: nat): AdmissionControl
  {
    if now < failOpenUntil then FailOpen
    else if stored == Admitting then Open else OnHold
  }

  /** The forward chain, with maintenance reachable from and leading anywhere. */
  predicate TransitionAllowed(from: Phase, to: Phase)
  {
    || from == to || to == Maintenance || from == Maintenance
    || (from == Idle && to == PreQueue) || (from == PreQueue && to == Active) || (from == Active && to == PostEvent)
  }

  // ---- The guards and updates of the store calls ----------------------------

  /** The debounce predicate: the last action is at least the window ago. */
  predicate DebouncePredicate(c: Counters, nowMs: nat)
  {
    c.lastActionMs.None? || c.lastActionMs.value <= (if nowMs >= DEBOUNCE_MILLIS then nowMs - DEBOUNCE_MILLIS else -1)
  }

  /** The stamp predicate: no newer anchor is stored. */
  predicate StampPredicate(c: Counters, nowMs: nat)
  {
    c.lastActionMs.None? || c.lastActionMs.value <= nowMs
  }

  predicate EditGuard(c: Counters, edit: Edit)
  {
    match edit
    case SetRate(expected, _) => c.targetRate == expected
    case SetControl(from, _) => c.control == from
    case SetMessage => true
    case SetStartsAt => true
  }

  function Edited(c: Counters, edit: Edit): Counters
  {
    match edit
    case SetRate(_, rate) => c.(targetRate := Some(rate))
    case SetControl(_, to) => c.(control := to)
    case SetMessage => c
    case SetStartsAt => c
  }

  predicate DebouncedCommits(w: World, edit: Edit, nowMs: nat)
  {
    EditGuard(w.c, edit) && DebouncePredicate(w.c, nowMs)
  }

  /** The guard on a phase: the item carries one, and it is this. */
  predicate PhaseIs(w: World, phase: Phase) { w.phased && w.c.phase == phase }

  predicate OpenCommits(w: World) { w.c.opening.None? && PhaseIs(w, PreQueue) }

  /** Whether the guard of an operator's update holds. */
  predicate ControlCommits(w: World, act: Action)
  {
    match act
    case SetPhase(from, _, _) => PhaseIs(w, from)
    case ForceMaintenance(from, _) => PhaseIs(w, from)
    case Debounced(edit, nowMs) => DebouncedCommits(w, edit, nowMs)
    case Stamp(nowMs) => StampPredicate(w.c, nowMs)
    case SetFailOpen(_, nowMs) => StampPredicate(w.c, nowMs)
    case _ => true
  }

  predicate ClaimsFirst(w: World, id: RequestId)
  {
    id !in w.positions || !w.positions[id].admitted
  }

  /** The positions of a block claimed at counter value `q`, with who each is for. */
  function BlockFor(q: nat, ids: seq<RequestId>): (m: map<nat, RequestId>)
    ensures forall p: nat :: p in m <==> q < p <= q + |ids|
    ensures forall p: nat :: q < p <= q + |ids| ==> m[p] == ids[p - q - 1]
  {
    if ids == [] then map[] else BlockFor(q, ids[..|ids| - 1])[q + |ids| := ids[|ids| - 1]]
  }

  /** The local indices of a block claimed on a shard at count `n`. */
  function SlotsFor(shard: nat, n: nat, ids: seq<RequestId>): (m: map<(nat, nat), RequestId>)
    ensures forall k :: k in m <==> k.0 == shard && n <= k.1 < n + |ids|
    ensures forall k :: k in m ==> m[k] == ids[k.1 - n]
  {
    if ids == [] then map[] else SlotsFor(shard, n, ids[..|ids| - 1])[(shard, n + |ids| - 1) := ids[|ids| - 1]]
  }

  function AfterClaimBlock(w: World, ids: seq<RequestId>): World
  {
    w.(c := w.c.(queueCounter := w.c.queueCounter + |ids|),
       allot := w.allot + BlockFor(w.c.queueCounter, ids))
  }

  function AfterPutPosition(w: World, id: RequestId, position: nat, digest: Digest): World
  {
    if id in w.positions then w
    else w.(positions := w.positions[id := PositionRow(position, false, digest)])
  }

  function AfterClaimPrequeue(w: World, shard: nat, ids: seq<RequestId>): World
  {
    if shard >= |w.shards| then w
    else w.(shards := w.shards[shard := w.shards[shard] + |ids|],
            slots := w.slots + SlotsFor(shard, w.shards[shard], ids))
  }

  function AfterPutPrequeue(w: World, id: RequestId, shard: nat, localIndex: nat, digest: Digest): World
  {
    if id in w.prequeue then w
    else w.(prequeue := w.prequeue[id := PreQueueRow(shard, localIndex, digest)])
  }

  function AfterWriteOpen(w: World, perm: seq<nat>, counts: seq<nat>): World
  {
    if !OpenCommits(w) || |counts| != SHARDS then w
    else w.(c := w.c.(phase := Active, queueCounter := Sum(counts),
                      opening := Some(OpenValues(perm, Folded(counts)))),
            openedCounts := counts)
  }

  function AfterRelease(w: World, actor: nat, d: ReleaseDecision, acked: bool): World
  {
    if w.c.servingCounter != d.previousServingCounter then w
    else w.(c := w.c.(servingCounter := d.nextServingCounter,
                      lastServingCounter := d.previousServingCounter,
                      lastArrivalsTotal := d.arrivalsTotal,
                      noShow := Some(d.noShow),
                      lastOpenPassAt := d.lastOpenPassAt),
            landed := w.landed + [Landed(actor, d.release, acked)])
  }

  function AfterClaimAdmission(w: World, actor: nat, id: RequestId, position: nat, digest: Digest, acked: bool): World
  {
    var kept := if id in w.positions then w.positions[id].digest else digest;
    var first := ClaimsFirst(w, id);
    w.(positions := if first then w.positions[id := PositionRow(position, true, kept)] else w.positions,
       tokens := if first || !acked then w.tokens + {actor} else w.tokens,
       claimErrors := if acked then w.claimErrors else w.claimErrors + 1)
  }

  function AfterRecordArrival(w: World, actor: nat, shard: nat): World
  {
    if shard >= |w.arrivals| then w
    else w.(arrivals := w.arrivals[shard := w.arrivals[shard] + 1], tokens := w.tokens - {actor})
  }

  /** What the control-plane updates write, when their guards hold. */
  function Controlled(c: Counters, act: Action): Counters
  {
    match act
    case SetPhase(_, to, nowMs) => c.(phase := to, lastActionMs := Some(nowMs))
    case ForceMaintenance(_, nowMs) => c.(phase := Maintenance, lastActionMs := Some(nowMs))
    case Debounced(edit, nowMs) => Edited(c, edit).(lastActionMs := Some(nowMs))
    case Stamp(nowMs) => c.(lastActionMs := Some(nowMs))
    case SetFailOpen(until, nowMs) => c.(failOpenUntil := until, lastActionMs := Some(nowMs))
    case SetFailOpenOnly(until) => c.(failOpenUntil := until)
    case _ => c
  }

  /** A control-plane update touches only the `Counters` item, and creates it if it
      was missing. */
  function AfterControl(w: World, act: Action): World
  {
    if ControlCommits(w, act) then w.(seeded := true, c := Controlled(w.c, act)) else w
  }

  function Apply(w: World, step: Step): World
  {
    match step.act
    case SeedItem(phase, rate) => w.(seeded := true, phased := true, c := w.c.(phase := phase, targetRate := Some(rate)))
    case ClaimBlock(ids) => AfterClaimBlock(w, ids)
    case PutPosition(id, position, digest) => AfterPutPosition(w, id, position, digest)
    case ClaimPrequeue(shard, ids) => AfterClaimPrequeue(w, shard, ids)
    case PutPrequeue(id, shard, localIndex, digest) => AfterPutPrequeue(w, id, shard, localIndex, digest)
    case WriteOpen(perm, counts) => AfterWriteOpen(w, perm, counts)
    case WriteRelease(pass, acked) => AfterRelease(w, step.actor, pass.Decision(), acked)
    case ClaimAdmission(id, position, digest, acked) =>
      AfterClaimAdmission(w, step.actor, id, position, digest, acked)
    case ClaimUnreached => w.(tokens := w.tokens + {step.actor}, claimErrors := w.claimErrors + 1)
    case RecordArrival(shard) => AfterRecordArrival(w, step.actor, shard)
    case _ => AfterControl(w, step.act)
  }

  /** When a process may take a step. None of these is an assumption about the
      code: each process module proves that its calls meet them, from what the
      process read earlier and what no other process can undo. */
  ghost predicate Enabled(w: World, step: Step)
  {
    match step.act
    case SeedItem(phase, _) => !w.seeded && (phase == Idle || phase == PreQueue)
    case ClaimBlock(ids) => ids != [] && w.c.opening.Some?
    case PutPosition(id, position, _) => position in w.allot && w.allot[position] == id
    case ClaimPrequeue(shard, ids) => ids != [] && shard < SHARDS
    case PutPrequeue(id, shard, localIndex, _) =>
      (shard, localIndex) in w.slots && w.slots[(shard, localIndex)] == id
    case WriteOpen(perm, counts) =>
      |counts| == SHARDS && BelowCounts(counts, w.shards) &&
      Sum(counts) <= U64_MAX && IsPermutation(perm, Sum(counts))
    case WriteRelease(pass, _) =>
      w.c.opening.Some? && pass.inputs.queueCounter <= w.c.queueCounter && ReadableRate(pass.prev)
    case ClaimAdmission(id, position, _, _) => Owns(w, id, position) && position < w.c.servingCounter
    case ClaimUnreached => true
    case RecordArrival(shard) => shard < SHARDS && step.actor in w.tokens
    case SetPhase(from, to, _) => TransitionAllowed(from, to) && (to == Active ==> w.c.opening.Some?)
    case ForceMaintenance(_, _) => true
    case Debounced(_, _) => true
    case Stamp(_) => true
    case SetFailOpen(_, _) => true
    case SetFailOpenOnly(_) => true
  }

  ghost predicate BelowCounts(counts: seq<nat>, shards: seq<nat>)
  {
    |counts| == |shards| && forall s :: 0 <= s < |counts| ==> counts[s] <= shards[s]
  }

  /** A release changes the cursor, its baselines and the ledger, and nothing else. */
  lemma ReleaseTouches(w: World, step: Step)
    requires step.act.WriteRelease?
    ensures var w' := Apply(w, step); var c := w'.c;
            && w' == w.(c := c, landed := w'.landed)
            && c == w.c.(servingCounter := c.servingCounter, lastServingCounter := c.lastServingCounter,
                         lastArrivalsTotal := c.lastArrivalsTotal, noShow := c.noShow, lastOpenPassAt := c.lastOpenPassAt)
            && w' == AfterRelease(w, step.actor, step.act.pass.Decision(), step.act.acked)
  {
    hide Pass.Decision;
  }

  predicate IsControl(act: Action)
  {
    act.SetPhase? || act.ForceMaintenance? || act.Debounced? || act.Stamp? || act.SetFailOpen? || act.SetFailOpenOnly?
  }

  /** A control-plane update changes what operators own, creates the item at most, and
      changes nothing else. */
  lemma ControlTouches(w: World, act: Action)
    ensures var w' := AfterControl(w, act); var c := w'.c;
            && w' == w.(seeded := w'.seeded, c := c) && (w.seeded ==> w'.seeded)
            && c == w.c.(phase := c.phase, targetRate := c.targetRate, control := c.control,
                         failOpenUntil := c.failOpenUntil, lastActionMs := c.lastActionMs)
            && (c.phase != w.c.phase ==> w.phased && (act.SetPhase? || act.ForceMaintenance?))
            && (c.phase == Active && w.c.phase != Active ==> act.SetPhase? && act.to == Active)
  {
  }

  // ---- Resolution ------------------------------------------------------------

  datatype Resolution = NotOpen | BadShard | JoinsLive | CohortPosition(position: nat)

  /** Where a pre-queue row resolves to, against what the open published. */
  function ResolvePrequeue(c: Counters, row: PreQueueRow): Resolution
  {
    match c.opening
    case None => NotOpen
    case Some(o) =>
      if row.shard >= SHARDS then BadShard
      else
        match Assign(o.offsets, row.shard, row.localIndex)
        case LiveJoin => JoinsLive
        case PreQueueIndex(i) => CohortPosition(if i < |o.perm| then o.perm[i] else i)
  }

  /** The position a request id holds: its `Positions` row if there is one, and
      otherwise what its `PreQueue` row resolves to. */
  function PositionOf(w: World, id: RequestId): Option<nat>
  {
    if id in w.positions then Some(w.positions[id].position)
    else if id in w.prequeue then
      match ResolvePrequeue(w.c, w.prequeue[id])
      case CohortPosition(p) => Some(p)
      case _ => None
    else None
  }

  // ---- Runs ------------------------------------------------------------------

  function Exec(w: World, run: seq<Step>): World
  {
    if run == [] then w else Apply(Exec(w, run[..|run| - 1]), run[|run| - 1])
  }

  ghost predicate Legal(w: World, run: seq<Step>)
  {
    run == [] ||
    (Legal(w, run[..|run| - 1]) && Enabled(Exec(w, run[..|run| - 1]), run[|run| - 1]))
  }

  ghost predicate NotBy(run: seq<Step>, me: nat)
  {
    forall i :: 0 <= i < |run| ==> run[i].actor != me
  }

  /** A fresh event: at most just seeded, idle or in pre-queue; nothing registered,
      nothing issued, never opened. */
  ghost predicate Fresh(w: World)
  {
    && w.phased == w.seeded && (w.c.phase == Idle || (w.seeded && w.c.phase == PreQueue))
    && (w.c.targetRate.Some? ==> w.seeded)
    && w.c.opening.None? && w.c.lastActionMs.None? && w.c.noShow.None?
    && w.c.queueCounter == w.c.servingCounter == w.c.lastServingCounter == 0
    && w.c.lastArrivalsTotal == w.c.lastOpenPassAt == w.c.failOpenUntil == 0
    && w.c.control == Admitting
    && w.shards == w.arrivals == seq(SHARDS, _ => 0)
    && w.prequeue == map[] && w.positions == map[]
    && w.slots == map[] && w.allot == map[] && w.openedCounts == []
    && w.tokens == {} && w.claimErrors == 0 && w.landed == []
  }

  lemma {:induction false} ExecAppend(w: World, a: seq<Step>, b: seq<Step>)
    ensures Exec(w, a + b) == Exec(Exec(w, a), b)
    ensures Legal(w, a) && Legal(Exec(w, a), b) ==> Legal(w, a + b)
    ensures Legal(w, a + b) ==> Legal(w, a) && Legal(Exec(w, a), b)
  {
    if b == [] {
      assert a + b == a;
    } else {
      ExecAppend(w, a, b[..|b| - 1]);
      assert (a + b)[..|a + b| - 1] == a + b[..|b| - 1];
    }
  }

  lemma ExecNone(w: World)
    ensures Exec(w, []) == w && Legal(w, [])
  {
  }

  lemma ExecOne(w: World, step: Step)
    ensures Exec(w, [step]) == Apply(w, step)
    ensures Legal(w, [step]) <==> Enabled(w, step)
  {
    assert [step][..0] == [];
  }

  // ---- Ownership ---------------------------------------------------------------

  /** `(s, l)` is a counted pre-queue index claimed for `id` that the permutation
      sends to `p`. */
  ghost predicate CohortSlot(w: World, id: RequestId, s: nat, l: nat, p: nat)
  {
    && w.c.opening.Some?
    && s < SHARDS == |w.openedCounts| && l < w.openedCounts[s]
    && (s, l) in w.slots && w.slots[(s, l)] == id
    && Sum(w.openedCounts[..s]) + l < |w.c.opening.value.perm|
    && w.c.opening.value.perm[Sum(w.openedCounts[..s]) + l] == p
  }

  /** Position `p` was claimed for `id`, in the live sequence or the cohort. */
  ghost predicate Owns(w: World, id: RequestId, p: nat)
  {
    || (p in w.allot && w.allot[p] == id)
    || exists s, l :: CohortSlot(w, id, s, l, p)
  }

  // ---- The invariant -----------------------------------------------------------

  ghost predicate ShapeOk(w: World)
  {
    && |w.shards| == |w.arrivals| == SHARDS
    && (w.c.noShow.Some? ==> StorableRate(w.c.noShow.value))
    && (w.c.phase != Idle ==> w.phased) && (w.phased ==> w.seeded)
  }

  ghost predicate OpeningOk(w: World)
  {
    match w.c.opening
    case None =>
      && w.c.phase != Active
      && w.c.queueCounter == w.c.servingCounter == 0
      && w.allot == map[] && w.positions == map[]
    case Some(o) =>
      && w.phased
      && BelowCounts(w.openedCounts, w.shards)
      && Sum(w.openedCounts) <= U64_MAX
      && |w.openedCounts| == SHARDS
      && o.offsets == Folded(w.openedCounts)
      && IsPermutation(o.perm, Sum(w.openedCounts))
      && Sum(w.openedCounts) <= w.c.queueCounter
  }

  ghost predicate ClaimsOk(w: World)
  {
    && (forall k: (nat, nat) :: k in w.slots <==> k.0 < |w.shards| && k.1 < w.shards[k.0])
    && (w.c.opening.Some? ==>
          forall p: nat :: p in w.allot <==> Sum(w.openedCounts) < p <= w.c.queueCounter)
  }

  ghost predicate PrequeueOk(w: World)
  {
    forall id :: id in w.prequeue ==>
      var k := (w.prequeue[id].shard, w.prequeue[id].localIndex);
      k in w.slots && w.slots[k] == id
  }

  ghost predicate PositionsOk(w: World)
  {
    forall id :: id in w.positions ==>
      Owns(w, id, w.positions[id].position) &&
      (w.positions[id].admitted ==> w.positions[id].position < w.c.servingCounter)
  }

  ghost predicate CursorOk(w: World)
  {
    w.c.lastServingCounter <= w.c.servingCounter <= w.c.queueCounter + 1
  }

  ghost function Admitted(w: World): set<RequestId>
  {
    set id | id in w.positions && w.positions[id].admitted
  }

  ghost predicate ArrivalsOk(w: World)
  {
    Sum(w.arrivals) + |w.tokens| <= |Admitted(w)| + w.claimErrors
  }

  ghost function Amounts(landed: seq<Landed>): seq<nat>
  {
    seq(|landed|, i requires 0 <= i < |landed| => landed[i].amount)
  }

  ghost predicate LedgerOk(w: World)
  {
    Sum(Amounts(w.landed)) == w.c.servingCounter
  }

  ghost predicate Inv(w: World)
  {
    && ShapeOk(w) && OpeningOk(w) && ClaimsOk(w) && PrequeueOk(w) && PositionsOk(w)
    && CursorOk(w) && ArrivalsOk(w) && LedgerOk(w)
  }

  // ---- What no step undoes -----------------------------------------------------

  ghost predicate Extends<K(!new), V>(m: map<K, V>, m': map<K, V>)
  {
    forall k :: k in m ==> k in m' && m'[k] == m[k]
  }

  /** Everything a process may rely on having stayed true since it last looked. */
  ghost predicate Grows(w: World, w': World)
  {
    && (w.seeded ==> w'.seeded) && (w.phased ==> w'.phased)
    && (w.c.opening.Some? ==> w'.c.opening == w.c.opening && w'.openedCounts == w.openedCounts)
    && w.c.queueCounter <= w'.c.queueCounter
    && w.c.servingCounter <= w'.c.servingCounter
    && |w.shards| == |w'.shards| && (forall s :: 0 <= s < |w.shards| ==> w.shards[s] <= w'.shards[s])
    && |w.arrivals| == |w'.arrivals| && (forall s :: 0 <= s < |w.arrivals| ==> w.arrivals[s] <= w'.arrivals[s])
    && Extends(w.slots, w'.slots) && Extends(w.allot, w'.allot) && Extends(w.prequeue, w'.prequeue)
    && (forall id :: id in w.positions ==> id in w'.positions && w'.positions[id].digest == w.positions[id].digest)
    && (forall id :: id in w.positions && w.positions[id].admitted ==> w'.positions[id] == w.positions[id])
    && w.landed <= w'.landed
  }

  lemma GrowsTrans(a: World, b: World, c: World)
    requires Grows(a, b) && Grows(b, c)
    ensures Grows(a, c)
  {
  }

  lemma OwnsPersists(w: World, w': World, id: RequestId, p: nat)
    requires Grows(w, w') && Owns(w, id, p)
    ensures Owns(w', id, p)
  {
    if exists s, l :: CohortSlot(w, id, s, l, p) {
      var s, l :| CohortSlot(w, id, s, l, p);
      assert CohortSlot(w', id, s, l, p);
    }
  }

  // ---- Each step keeps the invariant -------------------------------------------

  ghost predicate Kept(w: World, w': World)
  {
    Inv(w') && Grows(w, w')
  }

  /** Rows keep their owners when what was claimed only grows and no row changes. */
  lemma PositionsCarry(w: World, w': World)
    requires PositionsOk(w) && Grows(w, w') && w'.positions == w.positions
    ensures PositionsOk(w')
  {
    forall id | id in w'.positions
      ensures Owns(w', id, w'.positions[id].position)
    {
      OwnsPersists(w, w', id, w.positions[id].position);
    }
  }

  lemma KeepsClaimBlock(w: World, ids: seq<RequestId>)
    requires Inv(w) && w.c.opening.Some?
    ensures Kept(w, AfterClaimBlock(w, ids))
  {
    var w' := AfterClaimBlock(w, ids);
    assert Grows(w, w');
    PositionsCarry(w, w');
    assert Admitted(w') == Admitted(w);
  }

  lemma KeepsPutPosition(w: World, id: RequestId, position: nat, digest: Digest)
    requires Inv(w) && position in w.allot && w.allot[position] == id
    ensures Kept(w, AfterPutPosition(w, id, position, digest))
  {
    var w' := AfterPutPosition(w, id, position, digest);
    if id !in w.positions {
      assert Grows(w, w');
      PositionsCarry(w, w'.(positions := w.positions));
      forall j | j in w'.positions
        ensures Owns(w', j, w'.positions[j].position)
      {
        if j != id {
          OwnsPersists(w, w', j, w.positions[j].position);
        }
      }
      assert Admitted(w') == Admitted(w);
    }
  }

  /** Steps that touch only the pre-queue tables and their claims. */
  lemma KeepsRegistration(w: World, w': World)
    requires Inv(w) && Grows(w, w')
    requires w' == w.(shards := w'.shards, slots := w'.slots, prequeue := w'.prequeue)
    requires forall k: (nat, nat) :: k in w'.slots <==> k.0 < |w'.shards| && k.1 < w'.shards[k.0]
    requires PrequeueOk(w')
    ensures Kept(w, w')
  {
    PositionsCarry(w, w');
    assert Admitted(w') == Admitted(w);
  }

  lemma KeepsClaimPrequeue(w: World, shard: nat, ids: seq<RequestId>)
    requires Inv(w) && shard < SHARDS
    ensures Kept(w, AfterClaimPrequeue(w, shard, ids))
  {
    var n := w.shards[shard];
    var claimed := SlotsFor(shard, n, ids);
    var w' := AfterClaimPrequeue(w, shard, ids);
    forall k: (nat, nat)
      ensures k in w'.slots <==> k.0 < |w'.shards| && k.1 < w'.shards[k.0]
    {
      assert k in w'.slots <==> k in w.slots || k in claimed;
    }
    SlotsExtend(w, shard, ids);
    forall id | id in w'.prequeue
      ensures var k := (w'.prequeue[id].shard, w'.prequeue[id].localIndex);
              k in w'.slots && w'.slots[k] == id
    {
      assert (w.prequeue[id].shard, w.prequeue[id].localIndex) in w.slots;
    }
    KeepsRegistration(w, w');
  }

  lemma SlotsExtend(w: World, shard: nat, ids: seq<RequestId>)
    requires ClaimsOk(w) && shard < |w.shards|
    ensures Grows(w, AfterClaimPrequeue(w, shard, ids))
  {
    var w' := AfterClaimPrequeue(w, shard, ids);
    forall k | k in w.slots
      ensures k in w'.slots && w'.slots[k] == w.slots[k]
    {
      assert k !in SlotsFor(shard, w.shards[shard], ids);
    }
  }

  lemma RowAdded(w: World, id: RequestId, row: PreQueueRow)
    requires PrequeueOk(w) && id !in w.prequeue
    requires (row.shard, row.localIndex) in w.slots && w.slots[(row.shard, row.localIndex)] == id
    ensures PrequeueOk(w.(prequeue := w.prequeue[id := row]))
    ensures Grows(w, w.(prequeue := w.prequeue[id := row]))
  {
  }

  lemma KeepsPutPrequeue(w: World, id: RequestId, shard: nat, localIndex: nat, digest: Digest)
    requires Inv(w) && (shard, localIndex) in w.slots && w.slots[(shard, localIndex)] == id
    ensures Kept(w, AfterPutPrequeue(w, id, shard, localIndex, digest))
  {
    if id !in w.prequeue {
      RowAdded(w, id, PreQueueRow(shard, localIndex, digest));
      KeepsRegistration(w, AfterPutPrequeue(w, id, shard, localIndex, digest));
    }
  }

  lemma KeepsWriteOpen(w: World, perm: seq<nat>, counts: seq<nat>)
    requires Inv(w)
    requires |counts| == SHARDS && BelowCounts(counts, w.shards) && Sum(counts) <= U64_MAX
    requires IsPermutation(perm, Sum(counts))
    ensures Kept(w, AfterWriteOpen(w, perm, counts))
  {
    var w' := AfterWriteOpen(w, perm, counts);
    assert Grows(w, w');
    assert Admitted(w') == Admitted(w);
  }

  lemma KeepsRelease(w: World, actor: nat, d: ReleaseDecision, acked: bool, queueCounter: nat)
    requires Inv(w) && w.c.opening.Some? && queueCounter <= w.c.queueCounter
    requires StorableRate(d.noShow)
    requires d.previousServingCounter <= d.nextServingCounter <= Max(d.previousServingCounter, queueCounter + 1)
    requires d.release == d.nextServingCounter - d.previousServingCounter
    ensures Kept(w, AfterRelease(w, actor, d, acked))
  {
    var w' := AfterRelease(w, actor, d, acked);
    if w.c.servingCounter == d.previousServingCounter {
      assert Grows(w, w');
      PositionsCarry(w, w');
      assert Admitted(w') == Admitted(w);
      var a := Amounts(w'.landed);
      assert a[..|a| - 1] == Amounts(w.landed);
    }
  }

  lemma AdmissionGrows(w: World, actor: nat, id: RequestId, position: nat, digest: Digest, acked: bool)
    ensures Grows(w, AfterClaimAdmission(w, actor, id, position, digest, acked))
  {
  }

  lemma AdmissionRows(w: World, w': World, id: RequestId, row: PositionRow)
    requires PositionsOk(w) && Grows(w, w') && Owns(w, id, row.position)
    requires row.position < w.c.servingCounter
    requires w'.positions == w.positions || w'.positions == w.positions[id := row]
    ensures PositionsOk(w')
  {
    forall j | j in w'.positions
      ensures Owns(w', j, w'.positions[j].position)
    {
      OwnsPersists(w, w', j, w'.positions[j].position);
    }
  }

  lemma AdmissionCounts(w: World, actor: nat, id: RequestId, position: nat, digest: Digest, acked: bool)
    requires ArrivalsOk(w)
    ensures ArrivalsOk(AfterClaimAdmission(w, actor, id, position, digest, acked))
  {
    var w' := AfterClaimAdmission(w, actor, id, position, digest, acked);
    if ClaimsFirst(w, id) {
      assert Admitted(w') == Admitted(w) + {id};
    } else {
      assert Admitted(w') == Admitted(w);
    }
  }

  lemma KeepsClaimAdmission(w: World, actor: nat, id: RequestId, position: nat, digest: Digest, acked: bool)
    requires Inv(w) && Owns(w, id, position) && position < w.c.servingCounter
    ensures Kept(w, AfterClaimAdmission(w, actor, id, position, digest, acked))
  {
    var w' := AfterClaimAdmission(w, actor, id, position, digest, acked);
    AdmissionGrows(w, actor, id, position, digest, acked);
    var kept := if id in w.positions then w.positions[id].digest else digest;
    AdmissionRows(w, w', id, PositionRow(position, true, kept));
    AdmissionCounts(w, actor, id, position, digest, acked);
    assert w'.c == w.c && w'.slots == w.slots && w'.prequeue == w.prequeue;
  }

  lemma KeepsRecordArrival(w: World, actor: nat, shard: nat)
    requires Inv(w) && shard < SHARDS && actor in w.tokens
    ensures Kept(w, AfterRecordArrival(w, actor, shard))
  {
    hide Sum, Owns, CohortSlot;
    var w' := AfterRecordArrival(w, actor, shard);
    assert Grows(w, w');
    PositionsCarry(w, w');
    assert Admitted(w') == Admitted(w);
    SumUpdate(w.arrivals, shard, w.arrivals[shard] + 1);
  }

  /** Steps that change neither rows, claims, cursors nor the opening. */
  lemma KeepsControl(w: World, w': World)
    requires Inv(w)
    requires w' == w.(c := w'.c, seeded := w'.seeded, phased := w'.phased, tokens := w'.tokens, claimErrors := w'.claimErrors)
    requires (w.seeded ==> w'.seeded) && (w.phased ==> w'.phased)
    requires (w'.c.phase != Idle ==> w'.phased) && (w'.phased ==> w'.seeded)
    requires w'.c.opening == w.c.opening && w'.c.queueCounter == w.c.queueCounter
    requires w'.c.servingCounter == w.c.servingCounter && w'.c.lastServingCounter == w.c.lastServingCounter
    requires w'.c.noShow == w.c.noShow
    requires w'.c.phase == Active ==> w.c.opening.Some?
    requires |w'.tokens| + w.claimErrors <= |w.tokens| + w'.claimErrors
    ensures Kept(w, w')
  {
    assert Grows(w, w');
    PositionsCarry(w, w');
    assert Admitted(w') == Admitted(w);
  }

  lemma KeepsWriteRelease(w: World, actor: nat, pass: Pass, acked: bool)
    requires Inv(w) && w.c.opening.Some?
    requires pass.inputs.queueCounter <= w.c.queueCounter && ReadableRate(pass.prev)
    ensures Kept(w, AfterRelease(w, actor, pass.Decision(), acked))
  {
    PassBounds(pass.inputs, pass.prev, pass.now);
    RateStaysStorable(pass.inputs, pass.prev, pass.now);
    KeepsRelease(w, actor, pass.Decision(), acked, pass.inputs.queueCounter);
  }

  lemma KeepsControlAction(w: World, act: Action)
    requires Inv(w)
    requires act.SetPhase? ==> (act.to == Active ==> w.c.opening.Some?)
    ensures Kept(w, AfterControl(w, act))
  {
    hide AfterControl;
    ControlTouches(w, act);
    KeepsControl(w, AfterControl(w, act));
  }

  lemma StepKeepsLive(w: World, step: Step)
    requires Inv(w) && Enabled(w, step) && (step.act.ClaimBlock? || step.act.PutPosition?)
    ensures Kept(w, Apply(w, step))
  {
    match step.act
    case ClaimBlock(ids) => KeepsClaimBlock(w, ids);
    case PutPosition(id, position, digest) => KeepsPutPosition(w, id, position, digest);
  }

  lemma StepKeepsRegistration(w: World, step: Step)
    requires Inv(w) && Enabled(w, step) && (step.act.ClaimPrequeue? || step.act.PutPrequeue?)
    ensures Kept(w, Apply(w, step))
  {
    match step.act
    case ClaimPrequeue(shard, ids) => KeepsClaimPrequeue(w, shard, ids);
    case PutPrequeue(id, shard, localIndex, digest) => KeepsPutPrequeue(w, id, shard, localIndex, digest);
  }

  lemma StepKeepsOpenAndRelease(w: World, step: Step)
    requires Inv(w) && Enabled(w, step) && (step.act.WriteOpen? || step.act.WriteRelease?)
    ensures Kept(w, Apply(w, step))
  {
    match step.act
    case WriteOpen(perm, counts) => KeepsWriteOpen(w, perm, counts);
    case WriteRelease(pass, acked) => KeepsWriteRelease(w, step.actor, pass, acked);
  }

  lemma StepKeepsAdmission(w: World, step: Step)
    requires Inv(w) && Enabled(w, step) && (step.act.ClaimAdmission? || step.act.RecordArrival?)
    ensures Kept(w, Apply(w, step))
  {
    match step.act
    case ClaimAdmission(id, position, digest, acked) =>
      KeepsClaimAdmission(w, step.actor, id, position, digest, acked);
    case RecordArrival(shard) => KeepsRecordArrival(w, step.actor, shard);
  }

  lemma StepKeepsControlPlane(w: World, step: Step)
    requires Inv(w) && Enabled(w, step) && IsControl(step.act)
    ensures Kept(w, Apply(w, step))
  {
    assert Apply(w, step) == AfterControl(w, step.act);
    KeepsControlAction(w, step.act);
  }

  lemma StepKeepsBookkeeping(w: World, step: Step)
    requires Inv(w) && Enabled(w, step) && (step.act.SeedItem? || step.act.ClaimUnreached?)
    ensures Kept(w, Apply(w, step))
  {
    KeepsControl(w, Apply(w, step));
  }

  lemma StepKeepsInv(w: World, step: Step)
    requires Inv(w) && Enabled(w, step)
    ensures Kept(w, Apply(w, step))
  {
    if IsControl(step.act) {
      StepKeepsControlPlane(w, step);
    } else if step.act.ClaimBlock? || step.act.PutPosition? {
      StepKeepsLive(w, step);
    } else if step.act.ClaimPrequeue? || step.act.PutPrequeue? {
      StepKeepsRegistration(w, step);
    } else if step.act.WriteOpen? || step.act.WriteRelease? {
      StepKeepsOpenAndRelease(w, step);
    } else if step.act.ClaimAdmission? || step.act.RecordArrival? {
      StepKeepsAdmission(w, step);
    } else {
      StepKeepsBookkeeping(w, step);
    }
  }

  lemma {:induction false} RunKeepsInv(w: World, run: seq<Step>)
    requires Inv(w) && Legal(w, run)
    ensures Inv(Exec(w, run)) && Grows(w, Exec(w, run))
  {
    if run != [] {
      var before := Exec(w, run[..|run| - 1]);
      RunKeepsInv(w, run[..|run| - 1]);
      StepKeepsInv(before, run[|run| - 1]);
      GrowsTrans(w, before, Exec(w, run));
    }
  }

  lemma {:induction false} SumOfZeros(k: nat)
    ensures Sum(seq(k, _ => 0)) == 0
  {
    if k > 0 {
      assert seq(k, _ => 0)[..k - 1] == seq(k - 1, _ => 0);
      SumOfZeros(k - 1);
    }
  }

  lemma FreshHolds(w: World)
    requires Fresh(w)
    ensures Inv(w)
  {
    SumOfZeros(SHARDS);
    assert Admitted(w) == {};
  }

  ghost predicate Reachable(w: World)
  {
    exists start, run :: Fresh(start) && Legal(start, run) && Exec(start, run) == w
  }

  lemma ReachableHolds(w: World)
    requires Reachable(w)
    ensures Inv(w)
  {
    var start, run :| Fresh(start) && Legal(start, run) && Exec(start, run) == w;
    FreshHolds(start);
    RunKeepsInv(start, run);
  }
}
