/** The shared audit anchor: spacing of debounced operator actions in any
    interleaving, and where the two halves of the debounce agree. */
module Debounce {
  import opened Common
  import opened Release
  import opened QueueProtocol
  import opened QueueGuarantees

  const NANOS_PER_MILLI: nat := 1_000_000

  /** The in-process check, on an arrival in nanoseconds against a stored stamp in
      milliseconds: the signed elapsed time is outside `[0, DEBOUNCE)`. */
  predicate DebounceCheck(lastActionMs: Option<nat>, nowNanos: nat)
  {
    lastActionMs.Some? ==>
      var elapsed := nowNanos - lastActionMs.value * NANOS_PER_MILLI;
      elapsed < 0 || elapsed >= DEBOUNCE_MILLIS * NANOS_PER_MILLI
  }

  /** The in-process check and the stored predicate accept the same arrivals
      exactly when the stored stamp is not later than the arrival; a later stamp
      passes the check and fails the predicate. */
  lemma HalvesAgree(c: Counters, nowNanos: nat)
    ensures var nowMs := nowNanos / 1_000_000;
            (DebounceCheck(c.lastActionMs, nowNanos) <==> DebouncePredicate(c, nowMs))
            <==> (c.lastActionMs.Some? ==> c.lastActionMs.value <= nowMs)
  {
    var nowMs := nowNanos / NANOS_PER_MILLI;
    assert nowMs * NANOS_PER_MILLI <= nowNanos < (nowMs + 1) * NANOS_PER_MILLI;
  }

  /** The two guards on the shared anchor, exactly: a debounced action needs a whole
      window since the stored stamp, and a stamp needs only not to be older. */
  lemma GuardsExactly(w: World, edit: Edit, nowMs: nat)
    ensures var last := if w.c.lastActionMs.Some? then w.c.lastActionMs.value else -2000;
            && (DebouncedCommits(w, edit, nowMs) ==> nowMs - last >= 2000)
            && (DebouncedCommits(w, SetMessage, nowMs) <==> nowMs - last >= 2000)
            && (ControlCommits(w, Stamp(nowMs)) <==> nowMs >= last)
  {
  }

  /** What a committed edit needs and leaves: the rate or the control it expected gone
      for the one it asked for, and everything else as it was but the stamp. */
  lemma EditLands(w: World, edit: Edit, nowMs: nat)
    requires DebouncedCommits(w, edit, nowMs)
    ensures var c, c' := w.c, AfterControl(w, Debounced(edit, nowMs)).c;
            && c'.lastActionMs == Some(nowMs)
            && c' == c.(targetRate := c'.targetRate, control := c'.control, lastActionMs := c'.lastActionMs)
            && (edit.SetRate? ==> c.targetRate == edit.expected && c'.targetRate == Some(edit.rate) && c'.control == c.control)
            && (edit.SetControl? ==> c.control == edit.from && c'.control == edit.to && c'.targetRate == c.targetRate)
            && (edit.SetMessage? || edit.SetStartsAt? ==> c'.control == c.control && c'.targetRate == c.targetRate)
  {
  }

  ghost predicate DebouncedCommitAt(w: World, run: seq<Step>, i: nat)
    requires i < |run|
  {
    run[i].act.Debounced? && DebouncedCommits(At(w, run, i), run[i].act.edit, run[i].act.nowMs)
  }

  /** A phase move or a forced maintenance that commits: the only stamps not
      guarded against an older arrival. */
  ghost predicate UnguardedCommitAt(w: World, run: seq<Step>, i: nat)
    requires i < |run|
  {
    (run[i].act.SetPhase? || run[i].act.ForceMaintenance?) && PhaseIs(At(w, run, i), run[i].act.from)
  }

  ghost predicate AnchorAtLeast(w: World, t: nat)
  {
    w.c.lastActionMs.Some? && w.c.lastActionMs.value >= t
  }

  /** The stamp a step commits, if it commits one. */
  ghost function Stamped(w: World, step: Step): Option<nat>
  {
    match step.act
    case SetPhase(from, _, nowMs) => if PhaseIs(w, from) then Some(nowMs) else None
    case ForceMaintenance(from, nowMs) => if PhaseIs(w, from) then Some(nowMs) else None
    case Debounced(edit, nowMs) => if DebouncedCommits(w, edit, nowMs) then Some(nowMs) else None
    case Stamp(nowMs) => if StampPredicate(w.c, nowMs) then Some(nowMs) else None
    case SetFailOpen(_, nowMs) => if StampPredicate(w.c, nowMs) then Some(nowMs) else None
    case _ => None
  }

  lemma StampedIsStored(w: World, step: Step)
    ensures Apply(w, step).c.lastActionMs == (if Stamped(w, step).Some? then Stamped(w, step) else w.c.lastActionMs)
  {
    hide Pass.Decision, AfterRelease, BlockFor, SlotsFor;
    if step.act.WriteRelease? {
      ReleaseTouches(w, step);
    }
  }

  /** Only a committed phase move or forced maintenance carrying an older arrival
      lowers the anchor. */
  lemma AnchorNeverDrops(w: World, step: Step, t: nat)
    requires AnchorAtLeast(w, t)
    requires (step.act.SetPhase? || step.act.ForceMaintenance?) && PhaseIs(w, step.act.from) ==> step.act.nowMs >= t
    ensures AnchorAtLeast(Apply(w, step), t)
  {
    StampedIsStored(w, step);
  }

  lemma CommitStamps(w: World, step: Step)
    requires step.act.Debounced? && DebouncedCommits(w, step.act.edit, step.act.nowMs)
    ensures AnchorAtLeast(Apply(w, step), step.act.nowMs)
  {
  }

  lemma {:induction false} AnchorHolds(w: World, run: seq<Step>, i: nat, j: nat, t: nat)
    requires Legal(w, run) && i <= j <= |run| && AnchorAtLeast(At(w, run, i), t)
    requires forall k :: i <= k < j && UnguardedCommitAt(w, run, k) ==> run[k].act.nowMs >= t
    ensures AnchorAtLeast(At(w, run, j), t)
  {
    if i < j {
      AnchorHolds(w, run, i, j - 1, t);
      assert UnguardedCommitAt(w, run, j - 1) ==> run[j - 1].act.nowMs >= t;
      StepAt(w, run, j - 1);
      AnchorNeverDrops(At(w, run, j - 1), run[j - 1], t);
    }
  }

  /** Two committed debounced mutations carry stamps at least the window apart when
      every phase move or forced maintenance committed between them carries an
      arrival no older than the first, whatever guarded stampers, fail-open writes
      and queue steps interleave. */
  lemma DebouncedSpacing(w: World, run: seq<Step>, i: nat, j: nat)
    requires Legal(w, run) && i < j < |run|
    requires DebouncedCommitAt(w, run, i) && DebouncedCommitAt(w, run, j)
    requires forall k :: i < k < j && UnguardedCommitAt(w, run, k) ==> run[k].act.nowMs >= run[i].act.nowMs
    ensures run[j].act.nowMs >= run[i].act.nowMs + 2000
  {
    StepAt(w, run, i);
    CommitStamps(At(w, run, i), run[i]);
    AnchorHolds(w, run, i + 1, j, run[i].act.nowMs);
  }

  /** Every debounced action that could commit now is a window after `t`. */
  ghost predicate SpacedFrom(w: World, t: nat)
  {
    forall edit: Edit, nowMs: nat :: DebouncedCommits(w, edit, nowMs) ==> nowMs >= t + 2000
  }

  lemma SpacedIsAnchored(w: World, t: nat)
    ensures SpacedFrom(w, t) <==> AnchorAtLeast(w, t)
  {
    if w.c.lastActionMs.None? {
      assert DebouncedCommits(w, SetMessage, 0);
    } else {
      assert DebouncedCommits(w, SetMessage, w.c.lastActionMs.value + DEBOUNCE_MILLIS);
    }
  }

  /** A committing phase move or forced maintenance keeps the spacing from `t`
      exactly when the arrival it carries is not older than `t`. */
  lemma MoveKeepsSpacingExactly(w: World, step: Step, t: nat)
    requires (step.act.SetPhase? || step.act.ForceMaintenance?) && PhaseIs(w, step.act.from)
    ensures SpacedFrom(Apply(w, step), t) <==> step.act.nowMs >= t
  {
    SpacedIsAnchored(Apply(w, step), t);
  }

  /** The last stamp committed by the steps from `i` up to `j`. */
  ghost function LastStamp(w: World, run: seq<Step>, i: nat, j: nat): Option<nat>
    requires i <= j <= |run|
  {
    if i == j then None
    else if Stamped(At(w, run, j - 1), run[j - 1]).Some? then Stamped(At(w, run, j - 1), run[j - 1])
    else LastStamp(w, run, i, j - 1)
  }

  lemma {:induction false} AnchorIsLastStamp(w: World, run: seq<Step>, i: nat, j: nat)
    requires Legal(w, run) && i <= j <= |run|
    ensures At(w, run, j).c.lastActionMs
            == (if LastStamp(w, run, i, j).Some? then LastStamp(w, run, i, j) else At(w, run, i).c.lastActionMs)
  {
    if i < j {
      AnchorIsLastStamp(w, run, i, j - 1);
      StepAt(w, run, j - 1);
      StampedIsStored(At(w, run, j - 1), run[j - 1]);
    }
  }

  /** In any run, whatever debounced action commits next is a window after an
      earlier one exactly when the last stamp committed since, by anyone, is not
      older than that action's. */
  lemma SpacingExactly(w: World, run: seq<Step>, i: nat, j: nat)
    requires Legal(w, run) && i < j <= |run| && DebouncedCommitAt(w, run, i)
    ensures SpacedFrom(At(w, run, j), run[i].act.nowMs) <==>
            (LastStamp(w, run, i + 1, j).Some? ==> LastStamp(w, run, i + 1, j).value >= run[i].act.nowMs)
  {
    StepAt(w, run, i);
    StampedIsStored(At(w, run, i), run[i]);
    AnchorIsLastStamp(w, run, i + 1, j);
    SpacedIsAnchored(At(w, run, j), run[i].act.nowMs);
  }

  /** The exception is real: an unguarded phase move carrying an older arrival
      lets a debounced action through whose stamp is earlier than the last one. */
  lemma PhaseMoveBreaksSpacing(w: World)
    requires Inv(w) && PhaseIs(w, Idle) && w.c.lastActionMs.None?
    ensures var run := [Step(0, Debounced(SetMessage, 9000)), Step(1, SetPhase(Idle, PreQueue, 1000)),
                        Step(2, Debounced(SetMessage, 4000))];
            && Legal(w, run) && DebouncedCommitAt(w, run, 0) && DebouncedCommitAt(w, run, 2)
            && run[2].act.nowMs < run[0].act.nowMs
  {
    var run := [Step(0, Debounced(SetMessage, 9000)), Step(1, SetPhase(Idle, PreQueue, 1000)),
                Step(2, Debounced(SetMessage, 4000))];
    assert run[..1] == [run[0]] && run[..0] == [];
    assert run[..2] == [run[0], run[1]];
    ThreeSteps(w, run[0], run[1], run[2]);
  }

  lemma ThreeSteps(w: World, a: Step, b: Step, c: Step)
    requires Enabled(w, a) && Enabled(Apply(w, a), b) && Enabled(Apply(Apply(w, a), b), c)
    ensures Exec(w, [a]) == Apply(w, a) && Exec(w, [a, b]) == Apply(Apply(w, a), b)
    ensures Legal(w, [a, b, c])
  {
    ExecOne(w, a);
    ExecOne(Apply(w, a), b);
    ExecAppend(w, [a], [b]);
    assert [a] + [b] == [a, b];
    ExecOne(Apply(Apply(w, a), b), c);
    ExecAppend(w, [a, b], [c]);
    assert [a, b] + [c] == [a, b, c];
  }
}
