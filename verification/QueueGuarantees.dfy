/** What the queue promises in every state any interleaving can reach. */
module QueueGuarantees {
  import opened Common
  import opened Cohort
  import opened Permutation
  import opened Release
  import opened QueueProtocol

  // ---- One position, one visitor ------------------------------------------------

  lemma CohortSlotUnique(w: World, a: RequestId, b: RequestId, s: nat, l: nat, t: nat, m: nat, p: nat)
    requires Inv(w) && CohortSlot(w, a, s, l, p) && CohortSlot(w, b, t, m, p)
    ensures a == b && s == t && l == m
  {
    var i, j := Sum(w.openedCounts[..s]) + l, Sum(w.openedCounts[..t]) + m;
    assert i == j;
    AssignInjective(w.openedCounts, s, l, t, m);
  }

  lemma CohortSlotBelow(w: World, id: RequestId, s: nat, l: nat, p: nat)
    requires Inv(w) && CohortSlot(w, id, s, l, p)
    ensures p < Sum(w.openedCounts)
  {
  }

  /** Live positions and cohort positions never meet. */
  lemma AllottedOutsideCohort(w: World, id: RequestId, p: nat)
    requires Inv(w) && p in w.allot
    ensures !exists s, l :: CohortSlot(w, id, s, l, p)
  {
    forall s: nat, l: nat
      ensures !CohortSlot(w, id, s, l, p)
    {
      if CohortSlot(w, id, s, l, p) {
        CohortSlotBelow(w, id, s, l, p);
      }
    }
  }

  /** A position is claimed for at most one request id. */
  lemma OwnerUnique(w: World, a: RequestId, b: RequestId, p: nat)
    requires Inv(w) && Owns(w, a, p) && Owns(w, b, p)
    ensures a == b
  {
    hide Inv, CohortSlot;
    if p in w.allot {
      AllottedOutsideCohort(w, a, p);
      AllottedOutsideCohort(w, b, p);
    } else {
      var s, l :| CohortSlot(w, a, s, l, p);
      var t, m :| CohortSlot(w, b, t, m, p);
      CohortSlotUnique(w, a, b, s, l, t, m, p);
    }
  }

  /** A pre-queue row that resolves into the cohort resolves to a position that
      was claimed for its own request id. */
  lemma ResolvedIsOwned(w: World, id: RequestId, p: nat)
    requires Inv(w) && id in w.prequeue
    requires ResolvePrequeue(w.c, w.prequeue[id]) == CohortPosition(p)
    ensures Owns(w, id, p) && p < Sum(w.openedCounts)
  {
    var row := w.prequeue[id];
    AssignOfFold(w.openedCounts, row.shard, row.localIndex);
    assert (row.shard, row.localIndex) in w.slots;
    assert CohortSlot(w, id, row.shard, row.localIndex, p);
  }

  lemma HeldIsOwned(w: World, id: RequestId, p: nat)
    requires Inv(w) && PositionOf(w, id) == Some(p)
    ensures Owns(w, id, p)
  {
    if id !in w.positions {
      ResolvedIsOwned(w, id, p);
    }
  }

  /** Two different request ids never hold the same position, in any reachable
      state of any interleaving of batches, opens, admissions and releases. */
  lemma PositionsNeverCollide(w: World, a: RequestId, b: RequestId)
    requires Reachable(w)
    requires PositionOf(w, a).Some? && PositionOf(w, a) == PositionOf(w, b)
    ensures a == b
  {
    ReachableHolds(w);
    HeldIsOwned(w, a, PositionOf(w, a).value);
    HeldIsOwned(w, b, PositionOf(w, b).value);
    OwnerUnique(w, a, b, PositionOf(w, a).value);
  }

  /** Where positions lie: the cohort fills `[0, N)`, live joins start at `N + 1`,
      and nobody holds `N`. */
  lemma PositionsSplitAtCohort(w: World, id: RequestId)
    requires Reachable(w) && PositionOf(w, id).Some?
    ensures w.c.opening.Some?
    ensures var p, n := PositionOf(w, id).value, w.c.opening.value.offsets.participantCount;
            p < n || (n < p <= w.c.queueCounter && p in w.allot)
  {
    ReachableHolds(w);
    var p := PositionOf(w, id).value;
    HeldIsOwned(w, id, p);
    if p !in w.allot {
      var s, l :| CohortSlot(w, id, s, l, p);
    }
  }

  lemma CohortFacts(w: World)
    requires Inv(w) && w.c.opening.Some?
    ensures |w.openedCounts| == SHARDS
    ensures w.c.opening.value.offsets.participantCount == Sum(w.openedCounts)
    ensures IsPermutation(w.c.opening.value.perm, Sum(w.openedCounts))
    ensures forall s, l: nat :: 0 <= s < SHARDS && l < w.openedCounts[s] ==> (s, l) in w.slots
  {
  }

  /** Every cohort position is somebody's claimed pre-queue index: the counted
      rows, pushed through the offsets and the permutation, cover `[0, N)`. */
  lemma CohortIsFilled(w: World, p: nat)
    requires Reachable(w) && w.c.opening.Some?
    requires p < w.c.opening.value.offsets.participantCount
    ensures exists id :: Owns(w, id, p)
  {
    hide Inv, Reachable, Folded;
    ReachableHolds(w);
    CohortFacts(w);
    var perm := w.c.opening.value.perm;
    DistinctFills(perm, Sum(w.openedCounts), p);
    var i :| 0 <= i < |perm| && perm[i] == p;
    SumAll(w.openedCounts);
    var s, l := AssignOnto(w.openedCounts, SHARDS, i);
    assert CohortSlot(w, w.slots[(s, l)], s, l, p);
    assert Owns(w, w.slots[(s, l)], p);
  }

  // ---- Admission ------------------------------------------------------------------

  ghost function PositionsHeld(w: World, ids: set<RequestId>): set<nat>
    requires forall id :: id in ids ==> id in w.positions
  {
    set id | id in ids :: w.positions[id].position
  }

  lemma RowIsOwned(w: World, id: RequestId)
    requires Inv(w) && id in w.positions
    ensures Owns(w, id, w.positions[id].position)
  {
  }

  lemma RowsDiffer(w: World, id: RequestId, other: RequestId)
    requires Inv(w) && id in w.positions && other in w.positions && id != other
    ensures w.positions[id].position != w.positions[other].position
  {
    hide Inv, Owns;
    RowIsOwned(w, id);
    RowIsOwned(w, other);
    if w.positions[id].position == w.positions[other].position {
      OwnerUnique(w, id, other, w.positions[id].position);
    }
  }

  lemma {:induction false} HeldPositionsCount(w: World, ids: set<RequestId>)
    requires Inv(w) && ids <= Admitted(w)
    ensures |PositionsHeld(w, ids)| == |ids|
  {
    hide Inv;
    if ids != {} {
      var id :| id in ids;
      HeldPositionsCount(w, ids - {id});
      var p := w.positions[id].position;
      assert PositionsHeld(w, ids) == PositionsHeld(w, ids - {id}) + {p};
      forall other | other in ids - {id}
        ensures w.positions[other].position != p
      {
        RowsDiffer(w, id, other);
      }
    } else {
      assert PositionsHeld(w, ids) == {};
    }
  }

  /** The number of visitors ever admitted never exceeds the admission cursor, and
      no more arrivals are counted than visitors admitted plus admission claims
      the store answered with an error. */
  lemma AdmissionsWithinCursor(w: World)
    requires Reachable(w)
    ensures |Admitted(w)| <= w.c.servingCounter
    ensures Sum(w.arrivals) <= |Admitted(w)| + w.claimErrors
  {
    ReachableHolds(w);
    HeldPositionsCount(w, Admitted(w));
    RangeSize(0, w.c.servingCounter);
    SubsetSize(PositionsHeld(w, Admitted(w)), Range(0, w.c.servingCounter));
  }

  /** The one position that the progress of the cursor must leave out is out of
      reach: whoever holds the last 64-bit position, or a later one, is never
      admitted with it. */
  lemma TopPositionNeverAdmitted(w: World, id: RequestId, p: nat)
    requires Reachable(w) && PositionOf(w, id) == Some(p) && p >= U64_MAX
    ensures id !in Admitted(w)
  {
    ReachableHolds(w);
  }

  /** Once a visitor is admitted their row never changes again, and their position
      stays theirs alone. */
  lemma AdmissionIsFinal(w: World, run: seq<Step>, id: RequestId)
    requires Reachable(w) && Legal(w, run) && id in Admitted(w)
    ensures var w' := Exec(w, run);
            id in Admitted(w') && w'.positions[id] == w.positions[id] &&
            PositionOf(w', id) == PositionOf(w, id)
  {
    ReachableHolds(w);
    RunKeepsInv(w, run);
  }

  // ---- The cursor -----------------------------------------------------------------

  /** The cursor never passes one beyond the last position issued; before the open
      nothing has joined live and nothing has been released. */
  lemma CursorWithinQueue(w: World)
    requires Reachable(w)
    ensures w.c.servingCounter <= w.c.queueCounter + 1
    ensures w.c.opening.None? ==> w.c.queueCounter == 0 && w.c.servingCounter == 0 && w.positions == map[]
  {
    ReachableHolds(w);
  }

  // ---- The open -------------------------------------------------------------------

  /** The state before step `i` of a run. */
  ghost function At(w: World, run: seq<Step>, i: nat): World
    requires i <= |run|
  {
    Exec(w, run[..i])
  }

  lemma LegalPrefix(w: World, run: seq<Step>, i: nat)
    requires Legal(w, run) && i <= |run|
    ensures Legal(w, run[..i])
  {
    assert run == run[..i] + run[i..];
    ExecAppend(w, run[..i], run[i..]);
  }

  lemma StepAt(w: World, run: seq<Step>, i: nat)
    requires Legal(w, run) && i < |run|
    ensures Enabled(At(w, run, i), run[i]) && At(w, run, i + 1) == Apply(At(w, run, i), run[i])
  {
    LegalPrefix(w, run, i + 1);
    assert run[..i + 1][..i] == run[..i];
  }

  ghost predicate CommitsOpenAt(w: World, run: seq<Step>, i: nat)
    requires i < |run|
  {
    run[i].act.WriteOpen? && |run[i].act.counts| == SHARDS && OpenCommits(At(w, run, i))
  }

  lemma InvAt(w: World, run: seq<Step>, i: nat)
    requires Inv(w) && Legal(w, run) && i <= |run|
    ensures Inv(At(w, run, i))
  {
    LegalPrefix(w, run, i);
    RunKeepsInv(w, run[..i]);
  }

  /** The steps `me` took from index `from` on include the committing open. */
  ghost predicate CommittedBy(w: World, run: seq<Step>, from: nat, me: nat)
  {
    exists k :: from <= k < |run| && run[k].actor == me && CommitsOpenAt(w, run, k)
  }

  lemma NotByNotCommitted(w: World, run: seq<Step>, from: nat, me: nat)
    requires from <= |run| && NotBy(run[from..], me)
    ensures !CommittedBy(w, run, from, me)
  {
    forall k | from <= k < |run|
      ensures run[k].actor != me
    {
      assert run[k] == run[from..][k - from];
    }
  }

  lemma CommittedByLast(w: World, run: seq<Step>, from: nat, step: Step)
    requires from <= |run| && NotBy(run[from..], step.actor)
    ensures CommittedBy(w, run + [step], from, step.actor) <==>
            step.act.WriteOpen? && |step.act.counts| == SHARDS && OpenCommits(Exec(w, run))
  {
    var longer := run + [step];
    assert longer[..|run|] == run && longer[|run|] == step;
    forall k | from <= k < |run|
      ensures longer[k].actor != step.actor
    {
      assert longer[k] == run[from..][k - from];
    }
    if step.act.WriteOpen? && |step.act.counts| == SHARDS && OpenCommits(Exec(w, run)) {
      assert CommitsOpenAt(w, longer, |run|);
    }
  }

  lemma LaterGrows(w: World, run: seq<Step>, i: nat, j: nat)
    requires Inv(w) && Legal(w, run) && i <= j <= |run|
    ensures Grows(At(w, run, i), At(w, run, j))
  {
    hide Inv, Grows, Apply, Enabled;
    LegalPrefix(w, run, j);
    InvAt(w, run, i);
    assert run[..j] == run[..i] + run[i..j];
    ExecAppend(w, run[..i], run[i..j]);
    RunKeepsInv(At(w, run, i), run[i..j]);
  }

  /** In any run, at most one open commits, whoever fires it; what it published
      never changes afterwards. */
  lemma OpenCommitsOnce(w: World, run: seq<Step>, i: nat, j: nat)
    requires Reachable(w) && Legal(w, run) && i < |run| && j < |run|
    requires CommitsOpenAt(w, run, i) && CommitsOpenAt(w, run, j)
    ensures i == j
  {
    hide Inv, Reachable, Legal, Exec, Enabled, Apply, Grows;
    ReachableHolds(w);
    var lo, hi := Min(i, j), Max(i, j);
    if lo < hi {
      StepAt(w, run, lo);
      CommitOpens(At(w, run, lo), run[lo]);
      LaterGrows(w, run, lo + 1, hi);
      OpenedStays(At(w, run, lo + 1), At(w, run, hi));
    }
  }

  lemma CommitOpens(w: World, step: Step)
    requires step.act.WriteOpen? && |step.act.counts| == SHARDS && OpenCommits(w)
    ensures Apply(w, step).c.opening.Some?
  {
  }

  lemma OpenedStays(w: World, w': World)
    requires Grows(w, w') && w.c.opening.Some?
    ensures w'.c.opening == w.c.opening
  {
  }

  /** An event found unopened at one moment and opened at the end of the run was
      opened by one of the steps in between. */
  lemma {:induction false} OpenedBetween(w: World, run: seq<Step>, i: nat)
    requires Inv(w) && Legal(w, run) && i <= |run|
    requires At(w, run, i).c.opening.None? && Exec(w, run).c.opening.Some?
    ensures exists k :: i <= k < |run| && CommitsOpenAt(w, run, k)
    decreases |run| - i
  {
    assert run[..|run|] == run;
    StepAt(w, run, i);
    if At(w, run, i + 1).c.opening.None? {
      OpenedBetween(w, run, i + 1);
    } else {
      OnlyOpenOpens(At(w, run, i), run[i]);
      assert CommitsOpenAt(w, run, i);
    }
  }

  lemma OnlyOpenOpens(w: World, step: Step)
    requires w.c.opening.None?
    ensures Apply(w, step).c.opening.Some? ==> step.act.WriteOpen? && |step.act.counts| == SHARDS && OpenCommits(w)
  {
    hide Pass.Decision, AfterRelease, BlockFor, SlotsFor;
    ControlTouches(w, step.act);
    if step.act.WriteRelease? {
      ReleaseTouches(w, step);
    }
  }

  lemma OpeningIsFinal(w: World, run: seq<Step>)
    requires Reachable(w) && Legal(w, run) && w.c.opening.Some?
    ensures Exec(w, run).c.opening == w.c.opening
  {
    ReachableHolds(w);
    RunKeepsInv(w, run);
  }

  /** The active phase always means opened, through every recovery path. */
  lemma ActiveMeansOpened(w: World)
    requires Reachable(w) && w.c.phase == Active
    ensures w.c.opening.Some? && w.seeded
  {
    ReachableHolds(w);
  }

  lemma PhaseStep(w: World, step: Step)
    requires Enabled(w, step) && (!w.seeded ==> w.c.phase == Idle)
    ensures TransitionAllowed(w.c.phase, Apply(w, step).c.phase)
  {
    hide Pass.Decision, AfterRelease, BlockFor, SlotsFor;
    ControlTouches(w, step.act);
    if step.act.WriteRelease? {
      ReleaseTouches(w, step);
    }
  }

  /** Every change of phase in any run is a legal transition, whoever makes it, and
      the active phase is entered only by the open or after it. */
  lemma PhasesMoveLegally(w: World, run: seq<Step>, i: nat)
    requires Reachable(w) && Legal(w, run) && i < |run|
    ensures var from, to := At(w, run, i).c.phase, At(w, run, i + 1).c.phase;
            TransitionAllowed(from, to) && (to == Active ==> At(w, run, i + 1).c.opening.Some?)
  {
    hide Inv, Reachable, Enabled, Apply, TransitionAllowed;
    ReachableHolds(w);
    StepAt(w, run, i);
    InvAt(w, run, i + 1);
    ActiveIsOpened(At(w, run, i + 1));
    InvAt(w, run, i);
    MissingIsIdle(At(w, run, i));
    PhaseStep(At(w, run, i), run[i]);
  }

  lemma MissingIsIdle(w: World)
    requires Inv(w)
    ensures !w.seeded ==> w.c.phase == Idle
  {
  }

  lemma ActiveIsOpened(w: World)
    requires Inv(w)
    ensures w.c.phase == Active ==> w.c.opening.Some?
  {
  }

  /** Why every action looks for the item first: a control write to a missing one
      creates an event no run ever moves out of idle or opens. */
  lemma {:induction false} BareItemIsStuck(w: World, run: seq<Step>)
    requires Inv(w) && Legal(w, run) && w.seeded && !w.phased
    ensures var c := Exec(w, run).c; c.phase == Idle && c.opening.None? && Exec(w, run).seeded && !Exec(w, run).phased
  {
    hide Inv, Apply, Enabled;
    if run == [] {
      UnphasedIsIdle(w);
    } else {
      var before := Exec(w, run[..|run| - 1]);
      BareItemIsStuck(w, run[..|run| - 1]);
      RunKeepsInv(w, run);
      BareStep(before, run[|run| - 1]);
      UnphasedIsIdle(Exec(w, run));
    }
  }

  lemma UnphasedIsIdle(w: World)
    requires Inv(w) && !w.phased
    ensures w.c.phase == Idle && w.c.opening.None?
  {
  }

  lemma BareStep(w: World, step: Step)
    requires Enabled(w, step) && w.seeded && !w.phased
    ensures Apply(w, step).seeded && !Apply(w, step).phased
  {
    hide Pass.Decision, AfterRelease, BlockFor, SlotsFor;
    ControlTouches(w, step.act);
    if step.act.WriteRelease? {
      ReleaseTouches(w, step);
    }
  }

  // ---- What the queue does not promise ---------------------------------------------

  /** A whole batch fitting between the open's read of the counts and its write:
      the row it wrote is past its shard's opened count. */
  ghost function StrandingRun(id: RequestId, digest: Digest): seq<Step>
  {
    [Step(0, SeedItem(Idle, 0)), Step(0, SetPhase(Idle, PreQueue, 0)),
     Step(1, ClaimPrequeue(0, [id])), Step(1, PutPrequeue(id, 0, 0, digest)),
     Step(2, WriteOpen([], seq(SHARDS, _ => 0)))]
  }

  lemma Snoc(w: World, run: seq<Step>, step: Step)
    requires Legal(w, run) && Enabled(Exec(w, run), step)
    ensures Legal(w, run + [step]) && Exec(w, run + [step]) == Apply(Exec(w, run), step)
  {
    assert (run + [step])[..|run|] == run;
  }

  lemma PreQueueOpens(w: World, id: RequestId, digest: Digest)
    requires Fresh(w) && !w.seeded
    ensures var run := StrandingRun(id, digest)[..2];
            Legal(w, run) && Exec(w, run) == w.(seeded := true, phased := true, c := w.c.(phase := PreQueue, targetRate := Some(0), lastActionMs := Some(0)))
  {
    var run := StrandingRun(id, digest);
    Snoc(w, [], run[0]);
    Snoc(w, [run[0]], run[1]);
    assert [] + [run[0]] == [run[0]];
    assert [run[0]] + [run[1]] == run[..2];
  }

  lemma RegistrationLands(w: World, id: RequestId, digest: Digest)
    requires Fresh(w) && !w.seeded
    ensures var run := StrandingRun(id, digest)[..4]; var w' := Exec(w, run);
            && Legal(w, run) && w'.seeded && OpenCommits(w')
            && |w'.shards| == SHARDS && w'.positions == map[]
            && id in w'.prequeue && w'.prequeue[id] == PreQueueRow(0, 0, digest)
  {
    hide Legal, Exec;
    var run := StrandingRun(id, digest);
    PreQueueOpens(w, id, digest);
    var w2 := Exec(w, run[..2]);
    assert (0, 0) in SlotsFor(0, 0, [id]);
    Snoc(w, run[..2], run[2]);
    assert run[..2] + [run[2]] == run[..3];
    assert Exec(w, run[..3]) == AfterClaimPrequeue(w2, 0, [id]);
    Snoc(w, run[..3], run[3]);
    assert run[..3] + [run[3]] == run[..4];
  }

  /** So not every straggler gets a place: from any fresh event there is a run that
      ends opened, with a registered id that resolves to a live join and holds no
      live position. */
  lemma StragglerCanBeStranded(w: World, id: RequestId, digest: Digest)
    requires Fresh(w) && !w.seeded
    ensures var run := StrandingRun(id, digest); var w' := Exec(w, run);
            && Legal(w, run) && w'.c.opening.Some?
            && id in w'.prequeue && ResolvePrequeue(w'.c, w'.prequeue[id]) == JoinsLive
            && PositionOf(w', id).None?
  {
    var run := StrandingRun(id, digest);
    var zeros := seq(SHARDS, _ => 0);
    RegistrationLands(w, id, digest);
    var at := Exec(w, run[..4]);
    SumOfZeros(SHARDS);
    assert BelowCounts(zeros, at.shards);
    Snoc(w, run[..4], run[4]);
    assert run[..4] + [run[4]] == run;
    AssignOfFold(zeros, 0, 0);
  }
}
