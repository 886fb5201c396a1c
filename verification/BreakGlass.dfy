/** The operator actions that write the gate document: engaging and clearing
    fail-open, which write two stores in a fixed order, replacing the ruleset, and
    the IP binding. */
module BreakGlass {
  import opened Common
  import opened QueueProtocol
  import opened Release
  import opened QueueStore
  import GC = GateConfig
  import opened GateStore

  const MAX_FAIL_OPEN_MINUTES: nat := 1440

  datatype ApplyError = InvalidDuration | InvalidRules | NotFound | Failed

  /** When a fail-open engaged now for some minutes ends. */
  function Until(nowSecs: u64, minutes: u64): (until: u64)
    ensures until == Min(nowSecs + 60 * minutes, 0xFFFF_FFFF_FFFF_FFFF)
  {
    SatAdd(nowSecs, SatMul(minutes, 60))
  }

  predicate ValidMinutes(minutes: Option<u32>): (valid: bool)
    ensures valid <==> minutes.Some? && 0 < minutes.value <= 24 * 60
  {
    minutes.Some? && 1 <= minutes.value <= MAX_FAIL_OPEN_MINUTES
  }

  /** The steps a process took on the queue's tables since a state. */
  twostate predicate NoStep(store: Store)
    reads store
  {
    old(store.trace) <= store.trace && QueueProtocol.NotBy(store.trace[|old(store.trace)|..], store.me)
  }

  /** The first call the process made was answered, for a state with no event. */
  twostate predicate FoundNothing(store: Store)
    reads store
  {
    store.fates(|old(store.log)|) == Answered && !store.SawBehind(|old(store.log)|).seeded
  }

  /** A call to either store failed. */
  twostate predicate CallFailed(store: Store, kvs: Kvs)
    reads store, kvs
  {
    || !AllAnswered(store.fates, |old(store.log)|, |store.log|)
    || !AllAnswered(kvs.fates, |old(kvs.log)|, |kvs.log|)
  }

  /** The gate document was committed to twice, which one call's single retry does
      not outlast. */
  twostate predicate Crowded(kvs: Kvs)
    reads kvs
  {
    |kvs.gate.commits| >= |old(kvs.gate).commits| + 2
  }

  twostate predicate NoCommit(kvs: Kvs)
    reads kvs
  {
    |old(kvs.gate).commits| <= |kvs.gate.commits| && kvs.Mine(|old(kvs.gate).commits|) == []
  }

  /** Whether this process committed the edit at least once, and nothing else. */
  twostate predicate OnlyCommits(kvs: Kvs, edit: GateEdit)
    reads kvs
  {
    && |old(kvs.gate).commits| <= |kvs.gate.commits|
    && forall c :: c in kvs.Mine(|old(kvs.gate).commits|) ==> c == Commit(kvs.me, edit)
  }

  /** Engages fail-open: the edge first, the queue's own deadline after it. An
      invalid duration or a missing event touches neither store; whatever fails,
      this call writes only its deadline, and never the queue's without the edge's. */
  method ApplyFailOpen(store: Store, kvs: Kvs, minutes: Option<u32>, nowMs: u64) returns (r: Result<(), ApplyError>)
    requires store.Valid() && kvs.Valid()
    modifies store, kvs
    ensures store.Valid() && kvs.Valid() && store.Since() && kvs.Since()
    ensures r == Err(InvalidDuration) <==> !ValidMinutes(minutes)
    ensures r == Err(InvalidDuration) || r == Err(NotFound) ==> NoStep(store) && NoCommit(kvs)
    ensures r == Err(NotFound) <==> ValidMinutes(minutes) && FoundNothing(store)
    ensures ValidMinutes(minutes) ==>
              var until := Until(nowMs / 1000, minutes.value);
              && until == Min(nowMs / 1000 + 60 * minutes.value, U64_MAX)
              && OwnOnlySet(store.trace[|old(store.trace)|..], store.me, until)
              && OnlyCommits(kvs, SetDeadline(until))
              && (r.Ok? ==> store.world.c.failOpenUntil == until)
    ensures !NoStep(store) ==> !NoCommit(kvs)
    ensures r.Ok? ==> !NoStep(store) && !NoCommit(kvs)
    ensures r == Err(Failed) ==>
              CallFailed(store, kvs) || Crowded(kvs) || Until(nowMs / 1000, minutes.value) >= GC.Power10(12)
  {
    hide QueueProtocol.Inv, QueueProtocol.Grows, QueueProtocol.Exec, QueueProtocol.Legal;
    hide Store.Valid, Kvs.Valid, GateStore.Inv, OwnOnlySet, Seen, SeenBehind;
    GrowsRefl(store.world);
    if minutes.None? || minutes.value == 0 || minutes.value > MAX_FAIL_OPEN_MINUTES {
      return Err(InvalidDuration);
    }
    var until := Until(nowMs / 1000, minutes.value);
    var state := store.LoadControl();
    ghost var atLoad, loaded, calls := store.world, store.trace, store.log;
    store.Stored();
    NothingSet(store.trace[|old(store.trace)|..], store.me, until);
    if state.Err? {
      return Err(Failed);
    }
    if state.value.None? {
      return Err(NotFound);
    }
    var edge := EdgeReadModifyWrite(kvs, SetDeadline(until));
    if edge.Err? {
      return Err(Failed);
    }
    CommittedIsMine(kvs, |old(kvs.gate).commits|, SetDeadline(until), edge.value);
    var engaged := store.SetFailOpenUntil(until, nowMs);
    GrowsTrans(old(store.world), atLoad, store.world);
    SeenStays(store.start, loaded, calls, store.trace, store.log, store.lag, |old(store.log)|);
    SetsJoin(old(store.trace), loaded, store.trace, store.me, until);
    r := if engaged.Ok? then Ok(()) else Err(Failed);
  }

  lemma NothingSet(run: seq<Step>, me: nat, until: nat)
    requires QueueProtocol.NotBy(run, me)
    ensures OwnOnlySet(run, me, until)
  {
  }

  /** Nothing of its own up to `mid`, and only deadlines after it. */
  lemma SetsJoin(first: seq<Step>, mid: seq<Step>, last: seq<Step>, me: nat, until: nat)
    requires first <= mid <= last && QueueProtocol.NotBy(mid[|first|..], me) && OwnOnlySet(last[|mid|..], me, until)
    ensures OwnOnlySet(last[|first|..], me, until)
    ensures !QueueProtocol.NotBy(last[|mid|..], me) ==> !QueueProtocol.NotBy(last[|first|..], me)
  {
    var a, b := mid[|first|..], last[|mid|..];
    assert last[|first|..] == a + b;
    if i :| 0 <= i < |b| && b[i].actor == me {
      assert (a + b)[|a| + i].actor == me;
    }
  }

  lemma CommittedIsMine(kvs: Kvs, since: nat, edit: GateEdit, c: GC.GateConfig)
    requires Committed(kvs.gate, since, kvs.me, edit, c)
    ensures since <= |kvs.gate.commits| && kvs.Mine(since) != []
  {
    var commits := kvs.gate.commits;
    var k :| since <= k < |commits| && commits[k] == Commit(kvs.me, edit) && Replay(kvs.gate.start, commits[..k + 1]) == c;
    assert commits[since..] == commits[since..k] + ([commits[k]] + commits[k + 1..]);
    ByAppend(commits[since..k], [commits[k]] + commits[k + 1..], kvs.me);
    ByAppend([commits[k]], commits[k + 1..], kvs.me);
    ByOne(commits[k]);
  }

  /** Clears fail-open: the queue's own deadline first, the edge's after it. */
  method ApplyRecover(store: Store, kvs: Kvs, nowMs: u64) returns (r: Result<(), ApplyError>)
    requires store.Valid() && kvs.Valid()
    modifies store, kvs
    ensures store.Valid() && kvs.Valid() && store.Since() && kvs.Since()
    ensures r == Err(NotFound) ==> NoStep(store) && NoCommit(kvs)
    ensures r == Err(NotFound) <==> FoundNothing(store)
    ensures OwnOnlySet(store.trace[|old(store.trace)|..], store.me, 0)
    ensures OnlyCommits(kvs, SetDeadline(0))
    ensures !NoCommit(kvs) ==> !NoStep(store) && store.world.c.failOpenUntil == 0
    ensures r.Ok? ==> !NoCommit(kvs)
    ensures r == Err(Failed) ==> CallFailed(store, kvs) || Crowded(kvs)
  {
    hide QueueProtocol.Inv, QueueProtocol.Grows, QueueProtocol.Exec, QueueProtocol.Legal;
    hide Store.Valid, Kvs.Valid, GateStore.Inv, OwnOnlySet, QueueProtocol.NotBy, Seen, SeenBehind;
    var state := store.LoadControl();
    ghost var atLoad, loaded, calls := store.world, store.trace, store.log;
    store.Stored();
    NothingSet(store.trace[|old(store.trace)|..], store.me, 0);
    if state.Err? {
      return Err(Failed);
    }
    if state.value.None? {
      return Err(NotFound);
    }
    var cleared := store.SetFailOpenUntil(0, nowMs);
    GrowsTrans(old(store.world), atLoad, store.world);
    SeenStays(store.start, loaded, calls, store.trace, store.log, store.lag, |old(store.log)|);
    SetsJoin(old(store.trace), loaded, store.trace, store.me, 0);
    if cleared.Err? {
      return Err(Failed);
    }
    var edge := EdgeReadModifyWrite(kvs, SetDeadline(0));
    if edge.Err? {
      return Err(Failed);
    }
    CommittedIsMine(kvs, |old(kvs.gate).commits|, SetDeadline(0), edge.value);
    r := Ok(());
  }

  /** Turns the IP binding on or off; a lost audit stamp is not a failure. */
  method ApplyIpBinding(store: Store, kvs: Kvs, on: bool, nowMs: u64) returns (r: Result<(), ApplyError>)
    requires store.Valid() && kvs.Valid()
    modifies store, kvs
    ensures store.Valid() && kvs.Valid() && store.Since() && kvs.Since()
    ensures r == Err(NotFound) ==> NoStep(store) && NoCommit(kvs)
    ensures r == Err(NotFound) <==> FoundNothing(store)
    ensures OnlyCommits(kvs, SetBinding(on))
    ensures r.Ok? ==> !NoCommit(kvs) && StampSent(store, |old(store.log)| + 1, nowMs)
    ensures r.Err? ==> NoStep(store)
    ensures r == Err(Failed) ==>
              CallFailed(store, kvs) || Crowded(kvs) || TooBigFor(kvs.gate, |old(kvs.gate).commits|, SetBinding(on))
  {
    hide QueueProtocol.Inv, QueueProtocol.Grows, QueueProtocol.Exec, QueueProtocol.Legal;
    hide Store.Valid, Kvs.Valid, GateStore.Inv, Seen, SeenBehind;
    var state := store.LoadControl();
    ghost var atLoad, loaded, calls := store.world, store.trace, store.log;
    store.Stored();
    if state.Err? {
      return Err(Failed);
    }
    if state.value.None? {
      return Err(NotFound);
    }
    var edge := EdgeReadModifyWrite(kvs, SetBinding(on));
    if edge.Err? {
      return Err(Failed);
    }
    CommittedIsMine(kvs, |old(kvs.gate).commits|, SetBinding(on), edge.value);
    var stamp := store.Mutate(Stamp(nowMs));
    GrowsTrans(old(store.world), atLoad, store.world);
    SeenStays(store.start, loaded, calls, store.trace, store.log, store.lag, |old(store.log)|);
    r := Ok(());
  }

  /** The document with these rules encodes, within the ceiling. */
  predicate WithinCeiling(c: GC.GateConfig, rules: seq<GC.ProtectionRule>)
  {
    var encoded := GC.EncodeGateConfig(c.(rules := rules));
    encoded.Ok? && |encoded.value| <= GC.RULES_WRITE_CEILING
  }

  /** Calls `k` and `k + 1` read the document, and it cannot carry the rules. */
  ghost predicate ProbeRefused(kvs: Kvs, k: nat, rules: seq<GC.ProtectionRule>)
    reads kvs
  {
    kvs.fates(k) == kvs.fates(k + 1) == Answered && !WithinCeiling(kvs.Doc(k + 1), rules)
  }

  /** Commits a ruleset that the stored document can carry: one measured with the
      new rules must stay within the ceiling reserved for a later fail-open, or
      nothing is written. */
  method CommitRules(kvs: Kvs, rules: seq<GC.ProtectionRule>) returns (r: Result<(), ApplyError>)
    requires kvs.Valid()
    modifies kvs
    ensures kvs.Valid() && kvs.Since()
    ensures r != Err(NotFound) && r != Err(InvalidDuration)
    ensures r == Err(InvalidRules) <==> ProbeRefused(kvs, |old(kvs.log)|, rules)
    ensures r == Err(InvalidRules) ==> NoCommit(kvs)
    ensures OnlyCommits(kvs, SetRules(rules))
    ensures !NoCommit(kvs) ==> GC.RulesValid(rules) && LeavesHeadroom(kvs.gate.start, rules)
    ensures r.Ok? ==> !NoCommit(kvs)
    ensures r == Err(Failed) ==>
              || !AllAnswered(kvs.fates, |old(kvs.log)|, |kvs.log|) || Crowded(kvs)
              || TooBigFor(kvs.gate, |old(kvs.gate).commits|, SetRules(rules))
    ensures GC.RulesValid(rules) && FitsWidest(kvs.gate.start, rules) ==> r != Err(InvalidRules)
  {
    hide Kvs.Valid, GateStore.Inv, GC.EncodeGateConfig, GC.BaseSize, GC.RulesValid;
    var read := kvs.ReadConfig();
    if read.Err? {
      return Err(Failed);
    }
    var probe := read.value.0.(rules := rules);
    var encoded := GC.EncodeGateConfig(probe);
    ProbeMeans(probe, kvs.gate.start.(rules := rules));
    if encoded.Err? || |encoded.value| > GC.RULES_WRITE_CEILING {
      return Err(InvalidRules);
    }
    kvs.Held();
    ghost var probed, calls := kvs.gate, kvs.log;
    var edge := EdgeReadModifyWrite(kvs, SetRules(rules));
    kvs.MineAdds(|old(kvs.gate).commits|, probed);
    DocStays(probed, calls, kvs.gate, kvs.log, |old(kvs.log)| + 1);
    if edge.Err? {
      return Err(Failed);
    }
    CommittedIsMine(kvs, |probed.commits|, SetRules(rules), edge.value);
    r := Ok(());
  }

  /** Replaces the ruleset: every ruleset accepted is valid and leaves the headroom,
      and one that fits it with the widest deadline and the binding on is never
      called invalid. A lost audit stamp is not a failure. */
  method ApplySetRules(store: Store, kvs: Kvs, rules: seq<GC.ProtectionRule>, nowMs: u64) returns (r: Result<(), ApplyError>)
    requires store.Valid() && kvs.Valid()
    modifies store, kvs
    ensures store.Valid() && kvs.Valid() && store.Since() && kvs.Since()
    ensures r == Err(NotFound) || r == Err(InvalidRules) ==> NoCommit(kvs)
    ensures r == Err(NotFound) <==> FoundNothing(store)
    ensures r == Err(InvalidRules) <==>
              store.fates(|old(store.log)|) == Answered && !FoundNothing(store) && ProbeRefused(kvs, |old(kvs.log)|, rules)
    ensures OnlyCommits(kvs, SetRules(rules))
    ensures !NoCommit(kvs) ==> GC.RulesValid(rules) && LeavesHeadroom(kvs.gate.start, rules)
    ensures r.Ok? ==> !NoCommit(kvs) && StampSent(store, |old(store.log)| + 1, nowMs)
    ensures r.Err? ==> NoStep(store)
    ensures r == Err(Failed) ==>
              CallFailed(store, kvs) || Crowded(kvs) || TooBigFor(kvs.gate, |old(kvs.gate).commits|, SetRules(rules))
    ensures GC.RulesValid(rules) && FitsWidest(kvs.gate.start, rules) ==> r != Err(InvalidRules)
  {
    hide QueueProtocol.Inv, QueueProtocol.Grows, QueueProtocol.Exec, QueueProtocol.Legal;
    hide Store.Valid, Kvs.Valid, GateStore.Inv, GC.RulesValid, LeavesHeadroom, FitsWidest, Seen, SeenBehind;
    var state := store.LoadControl();
    ghost var atLoad, loaded, calls := store.world, store.trace, store.log;
    store.Stored();
    if state.Err? {
      return Err(Failed);
    }
    if state.value.None? {
      return Err(NotFound);
    }
    r := CommitRules(kvs, rules);
    if r.Err? {
      return r;
    }
    var stamp := store.Mutate(Stamp(nowMs));
    GrowsTrans(old(store.world), atLoad, store.world);
    SeenStays(store.start, loaded, calls, store.trace, store.log, store.lag, |old(store.log)|);
  }

  predicate FitsWidest(start: GC.GateConfig, rules: seq<GC.ProtectionRule>)
  {
    GC.BaseSize(start.(rules := rules)) + 29 <= GC.RULES_WRITE_CEILING
  }

  predicate LeavesHeadroom(start: GC.GateConfig, rules: seq<GC.ProtectionRule>)
  {
    GC.BaseSize(start.(rules := rules)) < GC.RULES_WRITE_CEILING
  }

  /** What passing or failing the probe says about the ruleset alone. */
  lemma ProbeMeans(probe: GC.GateConfig, seeded: GC.GateConfig)
    requires probe.v == seeded.v && probe.enforceFrom == seeded.enforceFrom && probe.rules == seeded.rules
    ensures var encoded := GC.EncodeGateConfig(probe);
            && (encoded.Ok? && |encoded.value| <= GC.RULES_WRITE_CEILING ==>
                  GC.RulesValid(probe.rules) && GC.BaseSize(seeded) < GC.RULES_WRITE_CEILING)
            && (GC.RulesValid(probe.rules) && GC.BaseSize(seeded) + 29 <= GC.RULES_WRITE_CEILING ==>
                  encoded.Ok? && |encoded.value| <= GC.RULES_WRITE_CEILING)
  {
    hide GC.Text, GC.BaseSize;
    BaseSizeOf(probe, seeded);
    if GC.EncodeGateConfig(probe).Ok? && |GC.EncodeGateConfig(probe).value| <= GC.RULES_WRITE_CEILING {
      GC.CeilingLeavesHeadroom(probe);
    }
    GC.TextSize(probe);
    GC.DeadlineDigits(probe.failOpenUntil);
    assert |GC.Digits(probe.failOpenUntil)| >= 1;
  }

  // ---- Crashes between the two writes --------------------------------------------------

  /** The two deadlines: the gate's and the queue machinery's own. */
  datatype Deadlines = Deadlines(edge: nat, counters: nat)

  datatype Change = Engage(until: nat) | Recover

  /** How far an action got before it ended, crashed or gave up. */
  datatype Reach = Neither | FirstWrite | BothWrites

  /** What an action leaves: engaging writes the edge first, recovering the queue. */
  function Left(d: Deadlines, change: Change, reach: Reach): Deadlines
  {
    match change
    case Engage(until) =>
      Deadlines(if reach.Neither? then d.edge else until, if reach.BothWrites? then until else d.counters)
    case Recover =>
      Deadlines(if reach.BothWrites? then 0 else d.edge, if reach.Neither? then d.counters else 0)
  }

  ghost predicate QuietSteps(run: seq<Step>, me: nat)
  {
    forall i :: 0 <= i < |run| && (run[i].act.SetFailOpen? || run[i].act.SetFailOpenOnly?) ==> run[i].actor == me
  }

  lemma ControlDeadline(w: World, step: Step)
    requires IsControl(step.act)
    ensures !(step.act.SetFailOpen? || step.act.SetFailOpenOnly?) ==>
              QueueProtocol.Apply(w, step).c.failOpenUntil == w.c.failOpenUntil
    ensures step.act.SetFailOpen? || step.act.SetFailOpenOnly? ==>
              QueueProtocol.Apply(w, step).c.failOpenUntil in {w.c.failOpenUntil, step.act.until}
  {
    assert QueueProtocol.Apply(w, step) == AfterControl(w, step.act);
  }

  lemma StepDeadline(w: World, step: Step)
    ensures !(step.act.SetFailOpen? || step.act.SetFailOpenOnly?) ==>
              QueueProtocol.Apply(w, step).c.failOpenUntil == w.c.failOpenUntil
    ensures step.act.SetFailOpen? || step.act.SetFailOpenOnly? ==>
              QueueProtocol.Apply(w, step).c.failOpenUntil in {w.c.failOpenUntil, step.act.until}
  {
    hide Pass.Decision, AfterRelease, BlockFor, SlotsFor;
    if IsControl(step.act) {
      hide *;
      ControlDeadline(w, step);
    } else if step.act.WriteRelease? {
      ReleaseTouches(w, step);
    }
  }

  lemma {:induction false} RunDeadline(w: World, run: seq<Step>, me: nat, until: nat)
    requires OwnOnlySet(run, me, until) && QuietSteps(run, me)
    ensures QueueProtocol.Exec(w, run).c.failOpenUntil in {w.c.failOpenUntil, until}
    ensures QueueProtocol.NotBy(run, me) ==> QueueProtocol.Exec(w, run).c.failOpenUntil == w.c.failOpenUntil
  {
    hide QueueProtocol.Apply;
    if run != [] {
      var init, last := run[..|run| - 1], run[|run| - 1];
      RunDeadline(w, init, me, until);
      StepDeadline(QueueProtocol.Exec(w, init), last);
    }
  }

  ghost predicate QuietCommits(commits: seq<Commit>, me: nat)
  {
    forall i :: 0 <= i < |commits| && commits[i].edit.SetDeadline? ==> commits[i].actor == me
  }

  lemma {:induction false} CommitsDeadline(start: u64, before: seq<Commit>, more: seq<Commit>, me: nat, until: u64)
    requires QuietCommits(more, me) && forall c :: c in By(more, me) ==> c == Commit(me, SetDeadline(until))
    ensures LastDeadline(start, before + more) == if By(more, me) == [] then LastDeadline(start, before) else until
  {
    if more == [] {
      assert before + more == before;
    } else {
      var init, last := more[..|more| - 1], more[|more| - 1];
      assert (before + more)[..|before + more| - 1] == before + init;
      assert last.actor == me ==> last in By(more, me);
      assert forall c :: c in By(init, me) ==> c in By(more, me);
      assert forall i :: 0 <= i < |init| ==> init[i] == more[i];
      CommitsDeadline(start, before, init, me, until);
    }
  }

  /** A call of `ApplyFailOpen` with no one else writing the deadlines leaves what
      a crash at one of its three points would: `run` and the commits after `g`'s
      are what happened while it ran. */
  lemma EngageLeaves(w: World, run: seq<Step>, me: nat, g: Gate, g': Gate, kvsMe: nat, until: u64) returns (reach: Reach)
    requires OwnOnlySet(run, me, until) && QuietSteps(run, me)
    requires GateStore.Grows(g, g') && QuietCommits(g'.commits[|g.commits|..], kvsMe)
    requires forall c :: c in By(g'.commits[|g.commits|..], kvsMe) ==> c == Commit(kvsMe, SetDeadline(until))
    requires !QueueProtocol.NotBy(run, me) ==> By(g'.commits[|g.commits|..], kvsMe) != []
    ensures Deadlines(Current(g').failOpenUntil, QueueProtocol.Exec(w, run).c.failOpenUntil)
            == Left(Deadlines(Current(g).failOpenUntil, w.c.failOpenUntil), Engage(until), reach)
  {
    var more := g'.commits[|g.commits|..];
    assert g'.commits == g.commits + more;
    EditsOnlyTheirField(g.start, g.commits);
    EditsOnlyTheirField(g.start, g'.commits);
    CommitsDeadline(g.start.failOpenUntil, g.commits, more, kvsMe, until);
    RunDeadline(w, run, me, until);
    reach := if By(more, kvsMe) == [] then Neither
             else if QueueProtocol.Exec(w, run).c.failOpenUntil == until then BothWrites else FirstWrite;
  }

  /** The same of `ApplyRecover`. */
  lemma RecoverLeaves(w: World, run: seq<Step>, me: nat, g: Gate, g': Gate, kvsMe: nat) returns (reach: Reach)
    requires OwnOnlySet(run, me, 0) && QuietSteps(run, me)
    requires GateStore.Grows(g, g') && QuietCommits(g'.commits[|g.commits|..], kvsMe)
    requires forall c :: c in By(g'.commits[|g.commits|..], kvsMe) ==> c == Commit(kvsMe, SetDeadline(0))
    requires By(g'.commits[|g.commits|..], kvsMe) != [] ==> QueueProtocol.Exec(w, run).c.failOpenUntil == 0
    ensures Deadlines(Current(g').failOpenUntil, QueueProtocol.Exec(w, run).c.failOpenUntil)
            == Left(Deadlines(Current(g).failOpenUntil, w.c.failOpenUntil), Recover, reach)
  {
    var more := g'.commits[|g.commits|..];
    assert g'.commits == g.commits + more;
    EditsOnlyTheirField(g.start, g.commits);
    EditsOnlyTheirField(g.start, g'.commits);
    CommitsDeadline(g.start.failOpenUntil, g.commits, more, kvsMe, 0);
    RunDeadline(w, run, me, 0);
    reach := if By(more, kvsMe) != [] then BothWrites
             else if QueueProtocol.Exec(w, run).c.failOpenUntil == 0 then FirstWrite else Neither;
  }

  /** A single action keeps the queue's deadline within the gate's at every crash
      point exactly when it does not engage an earlier deadline than is stored. */
  lemma CrashSafeExactly(d: Deadlines, change: Change)
    requires d.counters <= d.edge
    ensures (forall reach :: Left(d, change, reach).counters <= Left(d, change, reach).edge)
            <==> (change.Recover? || change.until >= d.counters)
  {
    assert Left(d, change, FirstWrite).counters <= Left(d, change, FirstWrite).edge
           <==> (change.Recover? || change.until >= d.counters);
  }

  function AfterAll(d: Deadlines, history: seq<(Change, Reach)>): Deadlines
  {
    if history == [] then d
    else var last := history[|history| - 1]; Left(AfterAll(d, history[..|history| - 1]), last.0, last.1)
  }

  /** No action of the history engages an earlier deadline than the queue stores. */
  predicate NeverEarlier(d: Deadlines, history: seq<(Change, Reach)>)
  {
    forall i :: 0 <= i < |history| && history[i].0.Engage? ==>
      history[i].0.until >= AfterAll(d, history[..i]).counters
  }

  /** Over any sequence of operator actions, each possibly crashing between its two
      writes, the queue's deadline stays within the gate's; so whenever the queue
      resolves to fail-open, the gate has stopped enforcing. */
  lemma {:induction false} MachineryNeverStopsAlone(d: Deadlines, history: seq<(Change, Reach)>, control: StoredControl, now: nat)
    requires d.counters <= d.edge && NeverEarlier(d, history)
    ensures AfterAll(d, history).counters <= AfterAll(d, history).edge
    ensures Resolve(control, AfterAll(d, history).counters, now) == FailOpen ==> now < AfterAll(d, history).edge
  {
    if history != [] {
      var n := |history| - 1;
      forall i | 0 <= i < n && history[..n][i].0.Engage?
        ensures history[..n][i].0.until >= AfterAll(d, history[..n][..i]).counters
      {
        assert history[..n][..i] == history[..i];
      }
      MachineryNeverStopsAlone(d, history[..n], control, now);
      CrashSafeExactly(AfterAll(d, history[..n]), history[n].0);
    }
  }

  /** The exception is real: engaging an earlier deadline over a later one, and
      crashing after the first write, stops the queue while the gate enforces. */
  lemma EarlierDeadlineUnsafe(control: StoredControl)
    ensures var d := AfterAll(Deadlines(0, 0), [(Engage(7200), BothWrites), (Engage(3600), FirstWrite)]);
            Resolve(control, d.counters, 5000) == FailOpen && !(5000 < d.edge)
  {
    var h := [(Engage(7200), BothWrites), (Engage(3600), FirstWrite)];
    assert h[..1] == [h[0]] && h[..1][..0] == [];
    assert AfterAll(Deadlines(0, 0), h[..1]) == Deadlines(7200, 7200);
  }
}
