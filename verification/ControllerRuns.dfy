/** What the controller guarantees over whole runs of the shared state machine:
    conservation of what is released, progress of the cursor, and what the
    no-show measurement counts. */
module ControllerRuns {
  import opened Common
  import opened Cohort
  import opened Release
  import opened QueueProtocol
  import opened QueueGuarantees

  // ---- Conservation -----------------------------------------------------------

  /** What the releases come to whose pass was told they landed, or was not. */
  ghost function Told(landed: seq<Landed>, acked: bool): nat
  {
    if landed == [] then 0
    else
      var last := landed[|landed| - 1];
      Told(landed[..|landed| - 1], acked) + if last.acked == acked then last.amount else 0
  }

  lemma {:induction false} AmountsSplit(landed: seq<Landed>)
    ensures Told(landed, true) + Told(landed, false) == Sum(Amounts(landed))
  {
    if landed != [] {
      var n := |landed| - 1;
      AmountsSplit(landed[..n]);
      assert Amounts(landed)[..n] == Amounts(landed[..n]);
    }
  }

  /** The releases of one process. */
  ghost function OwnLanded(landed: seq<Landed>, me: nat): seq<Landed>
  {
    if landed == [] then []
    else
      var last := landed[|landed| - 1];
      OwnLanded(landed[..|landed| - 1], me) + if last.actor == me then [last] else []
  }

  lemma {:induction false} OwnLandedAppend(a: seq<Landed>, b: seq<Landed>, me: nat)
    ensures OwnLanded(a + b, me) == OwnLanded(a, me) + OwnLanded(b, me)
  {
    if b == [] {
      assert a + b == a;
    } else {
      OwnLandedAppend(a, b[..|b| - 1], me);
      assert (a + b)[..|a + b| - 1] == a + b[..|b| - 1];
    }
  }

  /** What one process's releases among `landed` come to: `reported` is what its passes
      were told they released, `lost` what they moved without ever learning of it. */
  ghost predicate PassReports(landed: seq<Landed>, me: nat, reported: nat, lost: nat)
  {
    Told(OwnLanded(landed, me), true) == reported && Told(OwnLanded(landed, me), false) == lost
  }

  ghost function PerActor(landed: seq<Landed>, actors: seq<nat>, acked: bool): seq<nat>
  {
    seq(|actors|, i requires 0 <= i < |actors| => Told(OwnLanded(landed, actors[i]), acked))
  }

  lemma ToldOne(landed: seq<Landed>, me: nat, acked: bool)
    requires landed != []
    ensures var n := |landed| - 1; var last := landed[n];
            Told(OwnLanded(landed, me), acked) ==
            Told(OwnLanded(landed[..n], me), acked) + (if last.actor == me && last.acked == acked then last.amount else 0)
  {
    var n := |landed| - 1;
    var own, before := OwnLanded(landed, me), OwnLanded(landed[..n], me);
    if landed[n].actor == me {
      assert own[..|own| - 1] == before;
    } else {
      assert own == before;
    }
  }

  lemma PerActorStep(landed: seq<Landed>, actors: seq<nat>, acked: bool, a: nat)
    requires landed != [] && Distinct(actors) && a < |actors| && actors[a] == landed[|landed| - 1].actor
    ensures var n := |landed| - 1; var before := PerActor(landed[..n], actors, acked);
            PerActor(landed, actors, acked)
            == before[a := before[a] + (if landed[n].acked == acked then landed[n].amount else 0)]
  {
    hide Told, OwnLanded;
    forall i | 0 <= i < |actors|
      ensures actors[i] == landed[|landed| - 1].actor <==> i == a
    {
    }
    forall i | 0 <= i < |actors|
      ensures PerActor(landed, actors, acked)[i] == Told(OwnLanded(landed, actors[i]), acked)
    {
      ToldOne(landed, actors[i], acked);
    }
    forall i | 0 <= i < |actors|
    {
      ToldOne(landed, actors[i], acked);
    }
  }

  /** What the processes' releases come to adds up to what all of them come to. */
  lemma {:induction false} PerActorAddsUp(landed: seq<Landed>, actors: seq<nat>, acked: bool)
    requires Distinct(actors) && forall i :: 0 <= i < |landed| ==> landed[i].actor in actors
    ensures Sum(PerActor(landed, actors, acked)) == Told(landed, acked)
  {
    hide OwnLanded;
    if landed == [] {
      NothingTold(actors, acked);
    } else {
      var n := |landed| - 1;
      var a :| 0 <= a < |actors| && actors[a] == landed[n].actor;
      var before := PerActor(landed[..n], actors, acked);
      PerActorAddsUp(landed[..n], actors, acked);
      PerActorStep(landed, actors, acked, a);
      SumUpdate(before, a, PerActor(landed, actors, acked)[a]);
    }
  }

  lemma NothingTold(actors: seq<nat>, acked: bool)
    ensures Sum(PerActor([], actors, acked)) == 0
  {
    assert PerActor([], actors, acked) == seq(|actors|, _ => 0);
    SumOfZeros(|actors|);
  }

  lemma {:induction false} SumAppend(a: seq<nat>, b: seq<nat>)
    ensures Sum(a + b) == Sum(a) + Sum(b)
  {
    if b == [] {
      assert a + b == a;
    } else {
      SumAppend(a, b[..|b| - 1]);
      assert (a + b)[..|a + b| - 1] == a + b[..|b| - 1];
    }
  }

  /** Over any run of overlapping passes, one process each, what the passes reported
      and what was moved by passes that crashed or lost the reply after their write
      landed add up to the movement of the cursor. */
  lemma ReleasedIsMovement(w: World, run: seq<Step>, actors: seq<nat>, reports: seq<nat>, lost: seq<nat>)
    requires Inv(w) && Legal(w, run)
    requires Distinct(actors) && forall i :: 0 <= i < |run| && run[i].act.WriteRelease? ==> run[i].actor in actors
    requires w.landed <= Exec(w, run).landed && |reports| == |lost| == |actors|
    requires forall i :: 0 <= i < |actors| ==>
               PassReports(Exec(w, run).landed[|w.landed|..], actors[i], reports[i], lost[i])
    ensures Sum(reports) + Sum(lost) == Exec(w, run).c.servingCounter - w.c.servingCounter
  {
    hide Inv, Exec, Legal, PassReports, PerActor, Told;
    RunKeepsInv(w, run);
    LedgerMoves(w, Exec(w, run));
    var tail := Exec(w, run).landed[|w.landed|..];
    LandedBy(w, run, actors);
    PerActorAddsUp(tail, actors, true);
    PerActorAddsUp(tail, actors, false);
    ReportsArePerActor(tail, actors, reports, lost);
  }

  lemma ReportsArePerActor(landed: seq<Landed>, actors: seq<nat>, reports: seq<nat>, lost: seq<nat>)
    requires |reports| == |lost| == |actors|
    requires forall i :: 0 <= i < |actors| ==> PassReports(landed, actors[i], reports[i], lost[i])
    ensures reports == PerActor(landed, actors, true) && lost == PerActor(landed, actors, false)
  {
  }

  lemma LedgerMoves(w: World, w': World)
    requires Inv(w) && Inv(w') && w.landed <= w'.landed
    ensures var tail := w'.landed[|w.landed|..];
            Told(tail, true) + Told(tail, false) == w'.c.servingCounter - w.c.servingCounter
  {
    var tail := w'.landed[|w.landed|..];
    assert Amounts(w'.landed) == Amounts(w.landed) + Amounts(tail);
    SumAppend(Amounts(w.landed), Amounts(tail));
    AmountsSplit(tail);
  }

  /** With no crashed pass, reported and moved are equal. */
  lemma UncrashedReleasesAddUp(w: World, run: seq<Step>, actors: seq<nat>, reports: seq<nat>)
    requires Inv(w) && Legal(w, run)
    requires Distinct(actors) && forall i :: 0 <= i < |run| && run[i].act.WriteRelease? ==> run[i].actor in actors
    requires w.landed <= Exec(w, run).landed && |reports| == |actors|
    requires forall i :: 0 <= i < |actors| ==> PassReports(Exec(w, run).landed[|w.landed|..], actors[i], reports[i], 0)
    ensures Sum(reports) == Exec(w, run).c.servingCounter - w.c.servingCounter
  {
    hide Inv, Exec, Legal, PassReports;
    var none := seq(|actors|, _ => 0);
    assert forall i :: 0 <= i < |actors| ==> none[i] == 0;
    ReleasedIsMovement(w, run, actors, reports, none);
    SumOfZeros(|actors|);
  }

  /** The releases of a run are by the processes that took its release steps. */
  lemma {:induction false} LandedBy(w: World, run: seq<Step>, actors: seq<nat>)
    requires forall i :: 0 <= i < |run| && run[i].act.WriteRelease? ==> run[i].actor in actors
    ensures w.landed <= Exec(w, run).landed
    ensures forall i :: |w.landed| <= i < |Exec(w, run).landed| ==> Exec(w, run).landed[i].actor in actors
  {
    hide Apply;
    if run != [] {
      LandedBy(w, run[..|run| - 1], actors);
      LandedStep(Exec(w, run[..|run| - 1]), run[|run| - 1]);
    }
  }

  /** Nothing others do adds to this process's releases. */
  lemma {:induction false} OthersLandNothing(w: World, run: seq<Step>, me: nat)
    requires NotBy(run, me)
    ensures w.landed <= Exec(w, run).landed && OwnLanded(Exec(w, run).landed[|w.landed|..], me) == []
  {
    hide Apply;
    if run != [] {
      var before, after := Exec(w, run[..|run| - 1]).landed, Exec(w, run).landed;
      OthersLandNothing(w, run[..|run| - 1], me);
      LandedStep(Exec(w, run[..|run| - 1]), run[|run| - 1]);
      if before != after {
        var last := after[|after| - 1];
        assert after[|w.landed|..] == before[|w.landed|..] + [last];
        OwnLandedAppend(before[|w.landed|..], [last], me);
        assert [last][..0] == [];
      }
    }
  }

  lemma ControlLandsNothing(w: World, step: Step)
    requires IsControl(step.act)
    ensures Apply(w, step).landed == w.landed
  {
    hide AfterControl;
    ControlTouches(w, step.act);
    assert Apply(w, step) == AfterControl(w, step.act);
  }

  lemma LandedStep(w: World, step: Step)
    ensures Apply(w, step).landed == w.landed ||
            (step.act.WriteRelease? &&
             exists amount :: Apply(w, step).landed == w.landed + [Landed(step.actor, amount, step.act.acked)])
  {
    hide Pass.Decision, BlockFor, SlotsFor, Folded, Sum;
    if IsControl(step.act) {
      hide *;
      ControlLandsNothing(w, step);
    } else if step.act.WriteRelease? {
      ReleaseTouches(w, step);
      var d := step.act.pass.Decision();
      assert Apply(w, step).landed == w.landed ||
             Apply(w, step).landed == w.landed + [Landed(step.actor, d.release, step.act.acked)];
    }
  }

  /** A landed release persists its cursor with the one it replaced, and the arrivals,
      the rate and the time of the pass as the next baseline; a lost race persists
      nothing. */
  lemma ReleasePersists(w: World, step: Step)
    requires step.act.WriteRelease?
    ensures var pass, w' := step.act.pass, Apply(w, step); var d := ComputeRelease(pass.inputs, pass.prev, pass.now);
            if w.c.servingCounter == pass.inputs.servingCounter
            then
              && w'.c.servingCounter == d.nextServingCounter && w'.c.lastServingCounter == w.c.servingCounter
              && w'.c.lastArrivalsTotal == d.arrivalsTotal && w'.c.lastOpenPassAt == d.lastOpenPassAt
              && w'.c.noShow == Some(d.noShow)
              && w'.landed == w.landed + [Landed(step.actor, d.release, step.act.acked)]
            else w' == w
  {
    hide ComputeRelease;
    ReleaseTouches(w, step);
    DecidedFrom(step.act.pass);
    DecisionIsComputed(step.act.pass);
  }

  // ---- Progress ---------------------------------------------------------------

  ghost predicate Lands(w: World, step: Step)
  {
    step.act.WriteRelease? && w.c.servingCounter == step.act.pass.inputs.servingCounter
  }

  /** The passes of a run whose release landed, in order. */
  ghost function LandedPasses(w: World, run: seq<Step>): seq<Pass>
  {
    if run == [] then []
    else
      var last := run[|run| - 1];
      LandedPasses(w, run[..|run| - 1]) +
      if Lands(Exec(w, run[..|run| - 1]), last) then [last.act.pass] else []
  }

  /** The cursor at the start of the run and after each landed pass. */
  ghost function Cursors(w: World, run: seq<Step>): seq<nat>
  {
    if run == [] then [w.c.servingCounter]
    else
      Cursors(w, run[..|run| - 1]) +
      if Lands(Exec(w, run[..|run| - 1]), run[|run| - 1]) then [Exec(w, run).c.servingCounter] else []
  }

  ghost predicate SameCursor(c: Counters, c': Counters)
  {
    c'.servingCounter == c.servingCounter && c'.lastServingCounter == c.lastServingCounter && c'.noShow == c.noShow
  }

  lemma ControlKeepsCursor(w: World, step: Step)
    requires IsControl(step.act)
    ensures SameCursor(w.c, Apply(w, step).c)
  {
    hide AfterControl;
    ControlTouches(w, step.act);
    assert Apply(w, step) == AfterControl(w, step.act);
  }

  /** No step but a release touches the cursor, its baseline or the rate. */
  lemma CursorKept(w: World, step: Step)
    requires !step.act.WriteRelease?
    ensures SameCursor(w.c, Apply(w, step).c)
  {
    hide Pass.Decision, BlockFor, SlotsFor, Folded, Sum;
    if IsControl(step.act) {
      hide *;
      ControlKeepsCursor(w, step);
    }
  }

  lemma OnlyReleasesMove(w: World, step: Step)
    ensures !Lands(w, step) ==>
              Apply(w, step).c.servingCounter == w.c.servingCounter &&
              Apply(w, step).c.lastServingCounter == w.c.lastServingCounter
    ensures Lands(w, step) ==>
              Apply(w, step).c.servingCounter == step.act.pass.Decision().nextServingCounter &&
              Apply(w, step).c.lastServingCounter == w.c.servingCounter
  {
    hide Apply, Pass.Decision;
    if step.act.WriteRelease? {
      ReleaseTouches(w, step);
      DecidedFrom(step.act.pass);
    } else {
      CursorKept(w, step);
    }
  }

  /** The landed passes of a run form one chain: each read the cursor the one
      before it left. `lastServingCounter` is always the cursor before the most
      recent of them. */
  lemma {:induction false} RunIsChain(w: World, run: seq<Step>)
    requires Legal(w, run)
    ensures CursorChain(Cursors(w, run), LandedPasses(w, run))
    ensures var n := |LandedPasses(w, run)|; var c := Exec(w, run).c;
            && Cursors(w, run)[0] == w.c.servingCounter
            && Cursors(w, run)[n] == c.servingCounter
            && c.lastServingCounter == (if n == 0 then w.c.lastServingCounter else Cursors(w, run)[n - 1])
  {
    if run != [] {
      var init, last := run[..|run| - 1], run[|run| - 1];
      RunIsChain(w, init);
      OnlyReleasesMove(Exec(w, init), last);
      if Lands(Exec(w, init), last) {
        ExtendChain(Cursors(w, init), LandedPasses(w, init), last.act.pass, Exec(w, run).c.servingCounter);
      }
    }
  }

  lemma ExtendChain(cursor: seq<nat>, passes: seq<Pass>, p: Pass, s': nat)
    requires CursorChain(cursor, passes) && Moves(p, cursor[|passes|], s')
    ensures CursorChain(cursor + [s'], passes + [p])
  {
    var c, q := cursor + [s'], passes + [p];
    forall i | 0 <= i < |q|
      ensures Moves(q[i], c[i], c[i + 1])
    {
      if i < |passes| {
        assert Moves(passes[i], cursor[i], cursor[i + 1]);
      }
    }
  }

  /** Progress over any run: the cursor moves at most twenty times the summed
      rates of the landed passes, and passes every position within ten times them
      that was already in line when each of those passes read the queue. */
  lemma RunProgress(w: World, run: seq<Step>, p: nat)
    requires Legal(w, run)
    ensures var passes := LandedPasses(w, run); var s, s' := w.c.servingCounter, Exec(w, run).c.servingCounter;
            && s <= s' <= s + 20 * Sum(Rates(passes))
            && ((forall i :: 0 <= i < |passes| ==> p <= passes[i].inputs.queueCounter)
                && p < s + 10 * Sum(Rates(passes)) && p < U64_MAX
                ==> p < s')
  {
    RunIsChain(w, run);
    CursorProgress(Cursors(w, run), LandedPasses(w, run), p);
  }

  /** The pass of step `i` was computed from what some earlier state `j` stored. */
  ghost predicate ReadAt(w: World, run: seq<Step>, i: nat, j: nat)
    requires i < |run|
  {
    && run[i].act.WriteRelease? && j <= i
    && run[i].act.pass.inputs.servingCounter == At(w, run, j).c.servingCounter
    && run[i].act.pass.inputs.queueCounter == ReadU64(At(w, run, j).c.queueCounter)
    && run[i].act.pass.prev == At(w, run, j).c.noShow
  }

  lemma {:induction false} LandedFrom(w: World, run: seq<Step>, end: nat)
    requires forall i :: 0 <= i < |run| && Lands(At(w, run, i), run[i]) ==> end <= run[i].act.pass.inputs.queueCounter
    ensures forall k :: 0 <= k < |LandedPasses(w, run)| ==> end <= LandedPasses(w, run)[k].inputs.queueCounter
  {
    hide Exec;
    if run != [] {
      var init, n := run[..|run| - 1], |run| - 1;
      forall i | 0 <= i < n && Lands(At(w, init, i), init[i])
        ensures end <= init[i].act.pass.inputs.queueCounter
      {
        assert run[..i] == init[..i];
      }
      LandedFrom(w, init, end);
    }
  }

  /** Progress over states: when every landed pass of a run read some state of it,
      everyone in line when the run began, and within ten times the summed rates of
      the cursor, has been passed when it ends. */
  lemma LineIsPassed(w: World, run: seq<Step>, p: nat)
    requires Inv(w) && Legal(w, run) && Exec(w, run).c.queueCounter <= U64_MAX
    requires forall i :: 0 <= i < |run| && Lands(At(w, run, i), run[i]) ==> exists j :: ReadAt(w, run, i, j)
    requires p <= w.c.queueCounter && p < U64_MAX
    requires p < w.c.servingCounter + 10 * Sum(Rates(LandedPasses(w, run)))
    ensures p < Exec(w, run).c.servingCounter
  {
    hide Inv, Exec, Legal, Lands;
    forall i | 0 <= i < |run| && Lands(At(w, run, i), run[i])
      ensures p <= run[i].act.pass.inputs.queueCounter
    {
      var j :| ReadAt(w, run, i, j);
      QueueBetween(w, run, j);
    }
    LandedFrom(w, run, p);
    RunProgress(w, run, p);
  }

  lemma QueueBetween(w: World, run: seq<Step>, j: nat)
    requires Inv(w) && Legal(w, run) && j <= |run|
    ensures w.c.queueCounter <= At(w, run, j).c.queueCounter <= Exec(w, run).c.queueCounter
  {
    hide Inv, Legal;
    assert run[..0] == [] && run[..|run|] == run;
    LaterGrows(w, run, 0, j);
    LaterGrows(w, run, j, |run|);
  }

  // ---- The smoothed rate over runs ----------------------------------------------

  lemma RateStep(w: World, step: Step)
    ensures Apply(w, step).c.noShow == if Lands(w, step) then Some(step.act.pass.Decision().noShow) else w.c.noShow
  {
    hide Apply, Pass.Decision;
    if step.act.WriteRelease? {
      ReleaseTouches(w, step);
      DecidedFrom(step.act.pass);
    } else {
      CursorKept(w, step);
    }
  }

  lemma {:induction false} StoredRate(w: World, run: seq<Step>)
    ensures var passes := LandedPasses(w, run);
            Exec(w, run).c.noShow == if passes == [] then w.c.noShow else Some(passes[|passes| - 1].Decision().noShow)
  {
    hide Apply, Pass.Decision;
    if run != [] {
      StoredRate(w, run[..|run| - 1]);
      RateStep(Exec(w, run[..|run| - 1]), run[|run| - 1]);
    }
  }

  /** Step `i` of a run landed carrying the rate then stored. */
  ghost predicate CarriesStoredRate(w: World, run: seq<Step>, i: nat)
    requires i < |run|
  {
    Lands(At(w, run, i), run[i]) ==> run[i].act.pass.prev == At(w, run, i).c.noShow
  }

  /** The landed passes of a run each smooth the rate the one before persisted exactly
      when each carried the rate stored at the moment it landed. */
  lemma {:induction false} RatesChainExactly(w: World, run: seq<Step>)
    ensures RateChain(w.c.noShow, LandedPasses(w, run)) <==>
            forall i :: 0 <= i < |run| ==> CarriesStoredRate(w, run, i)
  {
    hide Apply, Pass.Decision, Exec;
    if run == [] {
      assert LandedPasses(w, run) == [];
    } else {
      var init, n := run[..|run| - 1], |run| - 1;
      RatesChainExactly(w, init);
      StoredRate(w, init);
      RateChainSnoc(w, run);
      forall i | 0 <= i < n
        ensures CarriesStoredRate(w, run, i) <==> CarriesStoredRate(w, init, i)
      {
        assert run[..i] == init[..i];
      }
    }
  }

  lemma RateChainAppend(start: Option<real>, passes: seq<Pass>, p: Pass)
    ensures RateChain(start, passes + [p]) <==>
            RateChain(start, passes) &&
            p.prev == (if passes == [] then start else Some(passes[|passes| - 1].Decision().noShow))
  {
    hide Pass.Decision;
    var longer := passes + [p];
    assert longer[|passes|] == p && forall i :: 0 <= i < |passes| ==> longer[i] == passes[i];
    if RateChain(start, longer) {
      forall i | 0 < i < |passes|
        ensures passes[i].prev == Some(passes[i - 1].Decision().noShow)
      {
        assert longer[i].prev == Some(longer[i - 1].Decision().noShow);
      }
      assert longer[|passes|].prev == p.prev;
    }
  }

  lemma RateChainSnoc(w: World, run: seq<Step>)
    requires run != []
    ensures var init, n := run[..|run| - 1], |run| - 1;
            RateChain(w.c.noShow, LandedPasses(w, run)) <==>
            RateChain(w.c.noShow, LandedPasses(w, init)) && CarriesStoredRate(w, run, n)
  {
    hide Apply, Pass.Decision, RateChain;
    var init, n := run[..|run| - 1], |run| - 1;
    StoredRate(w, init);
    if Lands(Exec(w, init), run[n]) {
      RateChainAppend(w.c.noShow, LandedPasses(w, init), run[n].act.pass);
    } else {
      assert LandedPasses(w, run) == LandedPasses(w, init);
    }
  }

  /** Between two states with the same cursor no release that moves it landed. */
  lemma {:induction false} SameCursorSameRate(w: World, run: seq<Step>, j: nat, i: nat)
    requires Inv(w) && Legal(w, run) && j <= i <= |run|
    requires forall k :: j <= k < i && Lands(At(w, run, k), run[k]) ==> run[k].act.pass.Decision().release > 0
    ensures At(w, run, j).c.servingCounter <= At(w, run, i).c.servingCounter
    ensures At(w, run, j).c.servingCounter == At(w, run, i).c.servingCounter ==>
              At(w, run, i).c.noShow == At(w, run, j).c.noShow
    decreases i - j
  {
    hide Inv, Exec, Legal, Apply, Pass.Decision, Enabled;
    if j < i {
      SameCursorSameRate(w, run, j, i - 1);
      var at, step := At(w, run, i - 1), run[i - 1];
      StepAt(w, run, i - 1);
      RateStep(at, step);
      OnlyReleasesMove(at, step);
      if Lands(at, step) {
        ReadableWhenTaken(at, step);
        PassBounds(step.act.pass.inputs, step.act.pass.prev, step.act.pass.now);
        DecisionIsComputed(step.act.pass);
      }
    }
  }

  lemma ReadableWhenTaken(w: World, step: Step)
    requires Enabled(w, step) && step.act.WriteRelease?
    ensures ReadableRate(step.act.pass.prev)
  {
  }

  lemma DecisionIsComputed(p: Pass)
    ensures p.Decision() == ComputeRelease(p.inputs, p.prev, p.now)
  {
  }

  /** The compare-and-set links the rates as well as the cursors as long as every
      landed release moves the cursor: each landed pass then smooths the rate the one
      before it persisted, however the passes overlap. */
  lemma MovingReleasesChainRates(w: World, run: seq<Step>)
    requires Inv(w) && Legal(w, run)
    requires forall i :: 0 <= i < |run| && Lands(At(w, run, i), run[i]) ==>
               run[i].act.pass.Decision().release > 0 && exists j :: ReadAt(w, run, i, j)
    ensures RateChain(w.c.noShow, LandedPasses(w, run))
  {
    hide Inv, Exec, Legal, Pass.Decision, RateChain;
    forall i | 0 <= i < |run|
      ensures CarriesStoredRate(w, run, i)
    {
      if Lands(At(w, run, i), run[i]) {
        var j :| ReadAt(w, run, i, j);
        SameCursorSameRate(w, run, j, i);
      }
    }
    RatesChainExactly(w, run);
  }

  lemma RateChainTwice(start: Option<real>, p: Pass)
    ensures RateChain(start, [p, p]) <==> p.prev == start && p.prev == Some(p.Decision().noShow)
  {
    hide Pass.Decision;
    assert [p, p][1].prev == p.prev && [p, p][0] == p;
  }

  /** And not otherwise: two passes computed from one state that both release nobody
      both land, and the second smooths the first's rate exactly when it changed
      nothing. */
  lemma IdleReleasesLandTwice(w: World, pass: Pass)
    requires pass.inputs.servingCounter == w.c.servingCounter && pass.prev == w.c.noShow
    requires pass.Decision().release == 0 && pass.Decision().nextServingCounter == w.c.servingCounter
    ensures var run := [Step(0, WriteRelease(pass, true)), Step(1, WriteRelease(pass, true))];
            && LandedPasses(w, run) == [pass, pass]
            && (RateChain(w.c.noShow, LandedPasses(w, run)) <==> Some(pass.Decision().noShow) == w.c.noShow)
  {
    hide Apply, Pass.Decision, RateChain;
    var a, b := Step(0, WriteRelease(pass, true)), Step(1, WriteRelease(pass, true));
    var run := [a, b];
    assert run[..1] == [a] && run[..1][..0] == [];
    assert Exec(w, [a]) == Apply(w, a) by { ExecOne(w, a); }
    OnlyReleasesMove(w, a);
    assert LandedPasses(w, run[..1]) == [pass];
    RateChainTwice(w.c.noShow, pass);
  }

  /** One visitor in line, passed; then two passes read that state, and both land. */
  function FirstPass(): Pass
  {
    Pass(ReleaseInputs(seq(SHARDS, _ => 0), 0, 0, 0, 1, 1, 0), None, 100)
  }

  function IdlePass(): Pass
  {
    Pass(ReleaseInputs(seq(SHARDS, _ => 0), 0, 0, 2, 1, 1, 100), Some(0.0), 105)
  }

  ghost function OverlapRun(id: RequestId): seq<Step>
  {
    [Step(0, SeedItem(PreQueue, 1)), Step(1, WriteOpen([], seq(SHARDS, _ => 0))), Step(2, ClaimBlock([id])),
     Step(3, WriteRelease(FirstPass(), true)), Step(4, WriteRelease(IdlePass(), true)),
     Step(5, WriteRelease(IdlePass(), true))]
  }

  lemma FirstDecision()
    ensures FirstPass().Decision() == ReleaseDecision(2, 2, 0, 0, 0.0, 100)
  {
    SumOfZeros(SHARDS);
  }

  lemma IdleDecision()
    ensures IdlePass().Decision() == ReleaseDecision(0, 2, 2, 0, 0.3, 105)
  {
    SumOfZeros(SHARDS);
    CorrectionBounds(10, 0.3);
  }

  lemma OverlapOpens(w: World, id: RequestId)
    requires Fresh(w) && !w.seeded
    ensures var run := OverlapRun(id)[..3]; var c := Exec(w, run).c;
            && Legal(w, run) && c.opening.Some? && c.queueCounter == 1
            && c.servingCounter == c.lastServingCounter == 0 && c.noShow == w.c.noShow
            && LandedPasses(w, run) == []
  {
    hide Legal, Exec;
    var run := OverlapRun(id);
    var zeros := seq(SHARDS, _ => 0);
    SumOfZeros(SHARDS);
    ExecNone(w);
    Snoc(w, [], run[0]);
    assert [] + [run[0]] == run[..1];
    assert BelowCounts(zeros, Exec(w, run[..1]).shards);
    Snoc(w, run[..1], run[1]);
    assert run[..1] + [run[1]] == run[..2];
    Snoc(w, run[..2], run[2]);
    assert run[..2] + [run[2]] == run[..3];
    NoneLanded(w, run[..3]);
  }

  lemma {:induction false} NoneLanded(w: World, run: seq<Step>)
    requires forall i :: 0 <= i < |run| ==> !run[i].act.WriteRelease?
    ensures LandedPasses(w, run) == []
  {
    if run != [] {
      NoneLanded(w, run[..|run| - 1]);
    }
  }

  lemma ReleaseLands(w: World, run: seq<Step>, step: Step, d: ReleaseDecision)
    requires Legal(w, run) && step.act.WriteRelease? && step.act.pass.Decision() == d
    requires ReadableRate(step.act.pass.prev) && step.act.pass.inputs.queueCounter <= Exec(w, run).c.queueCounter
    requires Exec(w, run).c.opening.Some?
    requires Exec(w, run).c.servingCounter == step.act.pass.inputs.servingCounter == d.previousServingCounter
    ensures var longer := run + [step]; var c, c' := Exec(w, run).c, Exec(w, longer).c;
            && Legal(w, longer) && LandedPasses(w, longer) == LandedPasses(w, run) + [step.act.pass]
            && c'.opening == c.opening && c'.queueCounter == c.queueCounter
            && c'.servingCounter == d.nextServingCounter && c'.noShow == Some(d.noShow)
  {
    hide Pass.Decision;
    Snoc(w, run, step);
    assert (run + [step])[..|run|] == run;
  }

  /** From any fresh event such a pair does break the chain: a legal run whose last
      two releases were computed from one state, both landed, and the second smooths
      a rate the first had already replaced. */
  lemma IdleReleasesOverlap(w: World, id: RequestId)
    requires Fresh(w) && !w.seeded
    ensures var run := OverlapRun(id);
            && Legal(w, run) && ReadAt(w, run, 4, 4) && ReadAt(w, run, 5, 4)
            && LandedPasses(w, run) == [FirstPass(), IdlePass(), IdlePass()]
            && !RateChain(w.c.noShow, LandedPasses(w, run))
  {
    hide Legal, Exec, LandedPasses, Pass.Decision;
    var run := OverlapRun(id);
    OverlapOpens(w, id);
    FirstDecision();
    IdleDecision();
    assert run[..3] + [run[3]] == run[..4];
    ReleaseLands(w, run[..3], run[3], FirstPass().Decision());
    assert run[..4] + [run[4]] == run[..5];
    ReleaseLands(w, run[..4], run[4], IdlePass().Decision());
    assert run[..5] + [run[5]] == run;
    ReleaseLands(w, run[..5], run[5], IdlePass().Decision());
    var passes := LandedPasses(w, run);
    assert passes[2].prev != Some(passes[1].Decision().noShow);
  }

  // ---- What the measurement counts --------------------------------------------

  ghost predicate Issued(w: World, p: nat)
    requires w.c.opening.Some?
  {
    p < w.c.opening.value.offsets.participantCount || p in w.allot
  }

  /** The issued positions the cursor passed in the last landed release. */
  ghost function PassedLast(w: World): set<nat>
    requires w.c.opening.Some?
  {
    set p | p in Range(w.c.lastServingCounter, w.c.servingCounter) && Issued(w, p)
  }

  /** The measured release against the issued positions the cursor passed: the
      measure leaves out position 0, which a non-empty cohort does issue, and
      counts the cohort-sized position, which nobody is issued. Both gaps are the
      same one when the cohort is empty, so the measure is then exact; otherwise
      it is off by one for the pass that crosses exactly one of them. */
  lemma MeasuredRelease(w: World, inputs: ReleaseInputs)
    requires Inv(w) && w.c.opening.Some?
    requires inputs.servingCounter == w.c.servingCounter && inputs.lastServingCounter == w.c.lastServingCounter
    ensures var n := w.c.opening.value.offsets.participantCount;
            var last, s := w.c.lastServingCounter, w.c.servingCounter;
            && |PassedLast(w)| - ReleasedLast(inputs)
               == (if last == 0 < s then 1 else 0) - (if last <= n < s then 1 else 0)
            && (n == 0 ==> |PassedLast(w)| == ReleasedLast(inputs))
            && -1 <= |PassedLast(w)| - ReleasedLast(inputs) <= 1
  {
    hide Inv, Issued;
    var n := w.c.opening.value.offsets.participantCount;
    var last, s := w.c.lastServingCounter, w.c.servingCounter;
    BaselineBehind(w);
    RangeSize(last, s);
    forall p | p in Range(last, s)
      ensures Issued(w, p) <==> p != n
    {
      IssuedBelowCursor(w, p);
    }
    if last <= n < s {
      assert Range(last, s) == PassedLast(w) + {n};
    } else {
      assert Range(last, s) == PassedLast(w);
    }
  }

  lemma BaselineBehind(w: World)
    requires Inv(w)
    ensures w.c.lastServingCounter <= w.c.servingCounter
  {
  }

  /** Below the cursor every position but the cohort-sized one was issued. */
  lemma IssuedBelowCursor(w: World, p: nat)
    requires Inv(w) && w.c.opening.Some? && p < w.c.servingCounter
    ensures Issued(w, p) <==> p != w.c.opening.value.offsets.participantCount
  {
    assert w.c.opening.value.offsets.participantCount == Sum(w.openedCounts);
  }
}
