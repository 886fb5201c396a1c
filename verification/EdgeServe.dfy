/** `serve` itself, statement by statement, against caches other calls share: at
    every wait and between any two of its steps other calls may move and the clock
    may pass, and the call may be dropped wherever it waits. Each atomic statement
    is shown to be one step of the state machine. */
module EdgeServe {
  import opened Common
  import opened EdgeCache

  /** No step of the run is taken by call `t`. */
  ghost predicate NotBy(run: seq<Step>, t: nat)
  {
    forall i :: 0 <= i < |run| ==> (run[i].Act? || run[i].Drop?) ==> run[i].task != t
  }

  lemma StepLeaves(c: Cache, step: Step, t: nat)
    requires Inv(c) && Enabled(c, step) && t < |c.tasks| && ((step.Act? || step.Drop?) ==> step.task != t)
    ensures var c' := Apply(c, step);
            && t < |c'.tasks| && c'.tasks[t] == c.tasks[t] && c'.errorTtl == c.errorTtl
            && (c.holder == Some(t) ==> c'.holder == Some(t))
  {
    hide Shape, CountsOk;
    if step.Act? || step.Drop? {
      ShapeAt(c, step.task);
    }
  }

  /** What others do leaves a call where it was, and with the lock it holds. */
  lemma {:induction false} RunLeaves(c: Cache, run: seq<Step>, t: nat)
    requires Inv(c) && Legal(c, run) && t < |c.tasks| && NotBy(run, t)
    ensures var c' := Exec(c, run);
            && t < |c'.tasks| && c'.tasks[t] == c.tasks[t] && c'.errorTtl == c.errorTtl
            && (c.holder == Some(t) ==> c'.holder == Some(t))
  {
    hide Inv, Enabled, Apply;
    if run != [] {
      RunLeaves(c, run[..|run| - 1], t);
      RunKeepsInv(c, run[..|run| - 1]);
      StepLeaves(Exec(c, run[..|run| - 1]), run[|run| - 1], t);
    }
  }

  /** Where call `t` stood at each step it took itself, in order. */
  ghost function Visits(c: Cache, run: seq<Step>, t: nat): seq<Pc>
  {
    if run == [] then []
    else
      var init, last := run[..|run| - 1], run[|run| - 1];
      var at := Exec(c, init);
      Visits(c, init, t) + if last.Act? && last.task == t && t < |at.tasks| then [at.tasks[t].pc] else []
  }

  lemma {:induction false} VisitsAppend(c: Cache, a: seq<Step>, b: seq<Step>, t: nat)
    requires NotBy(b, t)
    ensures Visits(c, a + b, t) == Visits(c, a, t)
  {
    if b == [] {
      assert a + b == a;
    } else {
      VisitsAppend(c, a, b[..|b| - 1], t);
      assert (a + b)[..|a + b| - 1] == a + b[..|b| - 1];
      assert b[|b| - 1].Act? ==> b[|b| - 1].task != t;
    }
  }

  lemma VisitsOne(c: Cache, run: seq<Step>, t: nat, fetched: Response)
    requires t < |Exec(c, run).tasks|
    ensures Visits(c, run + [Act(t, fetched)], t) == Visits(c, run, t) + [Exec(c, run).tasks[t].pc]
  {
    assert (run + [Act(t, fetched)])[..|run + [Act(t, fetched)]| - 1] == run;
  }

  /** The first look: at the clock, then at the entries. */
  predicate Looked(path: seq<Pc>)
  {
    |path| == 3 && path[0] == Starting && path[1] == ReadingClock && path[2].LookingUp?
  }

  /** Past the first look, with the in-flight map looked at once without the lock
      kept and, if nothing was in flight, again with it. */
  predicate Elected(path: seq<Pc>)
  {
    |path| == 6 && Looked(path[..3]) && path[3..] == [Joining, Electing, Holding]
  }

  predicate Rechecked(path: seq<Pc>)
  {
    |path| == 7 && Elected(path[..6]) && path[6].Rechecking?
  }

  /** The steps behind a call standing at `pc`, or dropped there. */
  predicate Route(path: seq<Pc>, pc: Pc)
  {
    match pc
    case Starting => path == []
    case ReadingClock => path == [Starting]
    case LookingUp(_) => path == [Starting, ReadingClock]
    case Joining => Looked(path)
    case Electing => |path| == 4 && Looked(path[..3]) && path[3] == Joining
    case Holding => |path| == 5 && Looked(path[..3]) && path[3..] == [Joining, Electing]
    case Rechecking(_) => Elected(path)
    case Inserting => Rechecked(path)
    case CountingHit(_, _) => Looked(path) || Rechecked(path)
    case CountingFollow(_) => (|path| == 4 && Looked(path[..3]) && path[3] == Joining) || Elected(path)
    case Waiting(l) => |path| >= 1 && path[|path| - 1] == CountingFollow(l) && Route(path[..|path| - 1], CountingFollow(l))
    case CountingOrigin => |path| == 8 && Rechecked(path[..7]) && path[7] == Inserting
    case Fetching => |path| == 9 && Rechecked(path[..7]) && path[7..] == [Inserting, CountingOrigin]
    case Storing(r) => |path| == 10 && Rechecked(path[..7]) && path[7..] == [Inserting, CountingOrigin, Fetching]
    case Removing(r) =>
      |path| == 11 && Rechecked(path[..7]) && path[7..] == [Inserting, CountingOrigin, Fetching, Storing(r)]
    case Sending(r) =>
      |path| == 12 && Rechecked(path[..7]) && path[7..] == [Inserting, CountingOrigin, Fetching, Storing(r), Removing(r)]
    case Done(Hit, r, from) =>
      |path| >= 1 && path[|path| - 1] == CountingHit(r, from) && Route(path[..|path| - 1], CountingHit(r, from))
    case Done(Collapsed, _, from) =>
      |path| >= 1 && path[|path| - 1] == Waiting(from) && Route(path[..|path| - 1], Waiting(from))
    case Done(Miss, r, _) =>
      |path| == 13 && Rechecked(path[..7]) &&
      path[7..] == [Inserting, CountingOrigin, Fetching, Storing(r), Removing(r), Sending(r)]
    case Dropped(at) => Route(path, at)
  }

  lemma RouteAdvances(c: Cache, t: nat, fetched: Response, path: seq<Pc>)
    requires t < |c.tasks| && CanAdvance(c, t) && Route(path, c.tasks[t].pc)
    ensures Route(path + [c.tasks[t].pc], Next(c, t, fetched))
  {
    var pc := c.tasks[t].pc;
    assert (path + [pc])[..|path|] == path;
    assert |path| >= 3 ==> (path + [pc])[..3] == path[..3];
    assert |path| >= 6 ==> (path + [pc])[..6] == path[..6];
    assert |path| >= 7 ==> (path + [pc])[..7] == path[..7];
  }

  /** What a step does to where one call stands. */
  lemma StandsAfter(c: Cache, step: Step, t: nat)
    requires Enabled(c, step)
    ensures var c' := Apply(c, step);
            && |c.tasks| <= |c'.tasks|
            && (t < |c.tasks| ==>
                  c'.tasks[t].pc == if step.Act? && step.task == t then Next(c, t, step.fetched)
                                    else if step.Drop? && step.task == t then Dropped(c.tasks[t].pc)
                                    else c.tasks[t].pc)
            && (t >= |c.tasks| && t < |c'.tasks| ==> c'.tasks[t].pc == Starting)
  {
    hide Next;
  }

  /** In every interleaving each call takes the source's statements in their order:
      it becomes the leader only after looking again with the lock held, and a
      leader stores, unregisters and sends, in that order. */
  lemma {:induction false} CallsFollowTheirRoute(c: Cache, run: seq<Step>, t: nat)
    requires Empty(c) && Legal(c, run)
    ensures t < |Exec(c, run).tasks| ==> Route(Visits(c, run, t), Exec(c, run).tasks[t].pc)
    ensures t >= |Exec(c, run).tasks| ==> Visits(c, run, t) == []
  {
    hide Next, Apply, CanAdvance, Awaits;
    if run != [] {
      var init, last := run[..|run| - 1], run[|run| - 1];
      var at := Exec(c, init);
      CallsFollowTheirRoute(c, init, t);
      StandsAfter(at, last, t);
      if last.Act? && last.task == t {
        assert CanAdvance(at, t);
        RouteAdvances(at, t, last.fetched, Visits(c, init, t));
      } else if t < |at.tasks| {
        assert Visits(c, run, t) == Visits(c, init, t);
        assert Route(Visits(c, init, t), Dropped(at.tasks[t].pc));
      } else {
        assert Visits(c, run, t) == Visits(c, init, t);
      }
    }
  }

  /** A leader that has its response stores it, unregisters and sends it. */
  function Publishes(fetched: Response): seq<Pc> { [Storing(fetched), Removing(fetched), Sending(fetched)] }

  class Edge {
    const errorTtl: nat
    /** What other calls and the clock do while call `t` pauses for the `k`-th time. */
    const others: (nat, nat, Cache) -> seq<Step>
    /** Whether a wait, once it could go on, does. */
    const resumes: nat -> bool

    var clock: nat
    var entries: map<string, Entry>
    var inflight: map<string, nat>
    var holder: Option<nat>
    var inbox: map<nat, Response>
    var counts: map<string, Counts>
    var tasks: seq<Task>
    var pauses: nat
    /** Every step anyone has taken. */
    ghost var trace: seq<Step>

    constructor (errorTtl: nat, others: (nat, nat, Cache) -> seq<Step>, resumes: nat -> bool)
      requires forall t, k, c :: Inv(c) ==> Legal(c, others(t, k, c)) && NotBy(others(t, k, c), t)
      ensures Valid() && trace == []
    {
      this.errorTtl, this.others, this.resumes := errorTtl, others, resumes;
      clock, entries, inflight, holder, inbox, counts, tasks, pauses := 0, map[], map[], None, map[], map[], [], 0;
      trace := [];
    }

    function State(): Cache
      reads this
    {
      Cache(errorTtl, clock, entries, inflight, holder, inbox, counts, tasks)
    }

    function Start(): Cache { Cache(errorTtl, 0, map[], map[], None, map[], map[], []) }

    /** The steps so far, each legal when it was taken, leave this state. */
    ghost predicate Leaves(c: Cache)
      reads `trace
    {
      Legal(Start(), trace) && c == Exec(Start(), trace) && OthersFollowRules()
    }

    ghost predicate Valid()
      reads this
    {
      Leaves(State())
    }

    /** Where call `t` stood at each step it has taken. */
    ghost function Path(t: nat): seq<Pc>
      reads `trace
    {
      Visits(Start(), trace, t)
    }

    lemma Reached()
      requires Valid()
      ensures Reachable(State()) && Inv(State())
    {
      assert Empty(Start());
      ReachableHolds(State());
    }

    ghost predicate OthersFollowRules()
    {
      forall t, k, c :: Inv(c) ==> Legal(c, others(t, k, c)) && NotBy(others(t, k, c), t)
    }

    /** What a call that returned, or was dropped, leaves behind. */
    ghost predicate Settled(t: nat, task: Task, r: Option<(Response, Disposition)>)
      reads this
    {
      && t < |tasks| && tasks[t].(pc := task.pc) == task
      && (r.None? ==> tasks[t].pc.Dropped?)
      && (r.Some? ==> tasks[t].pc.Done? && r.value == (tasks[t].pc.response, tasks[t].pc.disposition))
    }

    /** Other calls move, time passes. */
    method Pause(t: nat)
      requires Valid() && t < |tasks|
      modifies this
      ensures Valid() && t < |tasks| && tasks[t] == old(tasks)[t]
      ensures old(holder) == Some(t) ==> holder == Some(t)
      ensures old(trace) <= trace && Path(t) == old(Path(t))
    {
      hide Inv, Reachable, Legal, Exec, Visits;
      var c := State();
      var run := others(t, pauses, c);
      Reached();
      RunLeaves(c, run, t);
      ExecAppend(Start(), trace, run);
      VisitsAppend(Start(), trace, run, t);
      var c' := Exec(c, run);
      clock, entries, inflight, holder, inbox, counts, tasks :=
        c'.clock, c'.entries, c'.inflight, c'.holder, c'.inbox, c'.counts, c'.tasks;
      pauses := pauses + 1;
      trace := trace + run;
    }

    /** The call is dropped where it waits. */
    method Leave(t: nat)
      requires Valid() && t < |tasks| && Awaits(tasks[t].pc)
      modifies this
      ensures Valid() && tasks == old(tasks)[t := old(tasks)[t].(pc := Dropped(old(tasks)[t].pc))]
      ensures old(trace) <= trace && Path(t) == old(Path(t))
    {
      hide Legal, Exec;
      Extended(Start(), trace, Drop(t));
      assert (trace + [Drop(t)])[..|trace + [Drop(t)]| - 1] == trace;
      trace := trace + [Drop(t)];
      tasks := tasks[t := tasks[t].(pc := Dropped(tasks[t].pc))];
      holder := if holder == Some(t) then None else holder;
    }

    /** A wait for a lock, a message or the origin: it goes on with what it waited
        for, or the call is dropped there. */
    method Await(t: nat) returns (resumed: bool)
      requires Valid() && t < |tasks| && Awaits(tasks[t].pc)
      modifies this
      ensures Valid() && t < |tasks|
      ensures tasks[t].(pc := old(tasks)[t].pc) == old(tasks)[t]
      ensures resumed ==> tasks[t] == old(tasks)[t] && CanAdvance(State(), t)
      ensures resumed && old(holder) == Some(t) ==> holder == Some(t)
      ensures !resumed ==> tasks[t].pc == Dropped(old(tasks)[t].pc)
      ensures old(trace) <= trace && Path(t) == old(Path(t))
    {
      hide Leaves, Path, SenderAlive, Awaits;
      Pause(t);
      if CanAdvance(State(), t) && resumes(pauses) {
        return true;
      }
      Leave(t);
      resumed := false;
    }

    /** Call `t`'s statement took it to `pc`. */
    method Reach(t: nat, pc: Pc, ghost before: Cache, ghost fetched: Response)
      requires Leaves(before) && t < |tasks| && before.tasks == tasks && CanAdvance(before, t)
      requires State().(tasks := tasks[t := tasks[t].(pc := pc)]) == Advance(before, t, fetched)
      modifies this`tasks, this`trace
      ensures Valid() && tasks == old(tasks)[t := old(tasks)[t].(pc := pc)]
      ensures trace == old(trace) + [Act(t, fetched)] && Path(t) == old(Path(t)) + [old(tasks)[t].pc]
    {
      hide Advance, Legal, Exec, Visits;
      Extended(Start(), trace, Act(t, fetched));
      VisitsOne(Start(), trace, t, fetched);
      tasks := tasks[t := tasks[t].(pc := pc)];
      trace := trace + [Act(t, fetched)];
    }

    /** Serves a stored response. */
    method ServeHit(t: nat, response: Response) returns (r: Option<(Response, Disposition)>)
      requires Valid() && t < |tasks| && tasks[t].pc.CountingHit? && tasks[t].pc.response == response
      modifies this
      ensures Valid() && Settled(t, old(tasks)[t], r)
      ensures r == Some((response, Hit)) && tasks[t].pc == Done(Hit, response, old(tasks)[t].pc.from)
      ensures old(trace) <= trace && Path(t) == old(Path(t)) + [old(tasks)[t].pc]
    {
      hide Leaves, Path, Route, CountsFor, Subscribers, SenderAlive, Lifetime;
      Pause(t);
      ghost var before := State();
      var endpoint, from := tasks[t].endpoint, tasks[t].pc.from;
      var tally := CountsFor(counts, endpoint);
      counts := counts[endpoint := tally.(hits := tally.hits + 1)];
      Reach(t, Done(Hit, response, from), before, response);
      r := Some((response, Hit));
    }

    /** Waits for another call's fetch. */
    method Follow(t: nat, leader: nat) returns (r: Option<(Response, Disposition)>)
      requires Valid() && t < |tasks| && tasks[t].pc == CountingFollow(leader)
      modifies this
      ensures Valid() && Settled(t, old(tasks)[t], r)
      ensures r.Some? ==> r.value.1 == Collapsed && tasks[t].pc.from == leader
      ensures old(trace) <= trace && (r.Some? ==> Path(t) == old(Path(t)) + [CountingFollow(leader), Waiting(leader)])
    {
      hide Leaves, Path, Route, CountsFor, Subscribers, SenderAlive, Lifetime;
      CountFollow(t, leader);
      var received := Await(t);
      if !received {
        return None;
      }
      ghost var before := State();
      var response := if t in inbox then inbox[t] else COLLAPSE_FAILED;
      Reach(t, Done(Collapsed, response, leader), before, COLLAPSE_FAILED);
      r := Some((response, Collapsed));
    }

    method CountFollow(t: nat, leader: nat)
      requires Valid() && t < |tasks| && tasks[t].pc == CountingFollow(leader)
      modifies this
      ensures Valid() && t < |tasks| && tasks[t] == old(tasks)[t].(pc := Waiting(leader))
      ensures old(trace) <= trace && Path(t) == old(Path(t)) + [CountingFollow(leader)]
    {
      hide Leaves, Path, Route, CountsFor, Subscribers, SenderAlive, Lifetime;
      Pause(t);
      ghost var before := State();
      var endpoint := tasks[t].endpoint;
      var tally := CountsFor(counts, endpoint);
      counts := counts[endpoint := tally.(collapsed := tally.collapsed + 1)];
      Reach(t, Waiting(leader), before, COLLAPSE_FAILED);
    }

    /** Fetches from the origin, stores, unregisters and publishes, in that order. */
    method Lead(t: nat, fetched: Response) returns (r: Option<(Response, Disposition)>)
      requires Valid() && t < |tasks| && tasks[t].pc == CountingOrigin
      modifies this
      ensures Valid() && Settled(t, old(tasks)[t], r)
      ensures r.Some? ==> r == Some((fetched, Miss))
      ensures old(trace) <= trace
      ensures r.Some? ==> Path(t) == old(Path(t)) + [CountingOrigin, Fetching] + Publishes(fetched)
    {
      hide Leaves, Path, Route, CountsFor, Subscribers, SenderAlive, Lifetime;
      CountFetch(t);
      var answered := Await(t);
      if !answered {
        return None;
      }
      Reach(t, Storing(fetched), State(), fetched);
      r := Publish(t, fetched);
    }

    method CountFetch(t: nat)
      requires Valid() && t < |tasks| && tasks[t].pc == CountingOrigin
      modifies this
      ensures Valid() && t < |tasks| && tasks[t] == old(tasks)[t].(pc := Fetching)
      ensures old(trace) <= trace && Path(t) == old(Path(t)) + [CountingOrigin]
    {
      hide Leaves, Path, Route, CountsFor, Subscribers, SenderAlive, Lifetime;
      Pause(t);
      ghost var before := State();
      var endpoint := tasks[t].endpoint;
      var tally := CountsFor(counts, endpoint);
      counts := counts[endpoint := tally.(origin := tally.origin + 1)];
      Reach(t, Fetching, before, COLLAPSE_FAILED);
    }

    method Publish(t: nat, fetched: Response) returns (r: Option<(Response, Disposition)>)
      requires Valid() && t < |tasks| && tasks[t].pc == Storing(fetched)
      modifies this
      ensures Valid() && Settled(t, old(tasks)[t], r)
      ensures r.Some? ==> r == Some((fetched, Miss))
      ensures old(trace) <= trace && (r.Some? ==> Path(t) == old(Path(t)) + Publishes(fetched))
    {
      hide Leaves, Path, Route, CountsFor, Subscribers, SenderAlive, Lifetime;
      var key, ttl := tasks[t].key, tasks[t].ttl;
      var locked := Await(t);
      if !locked {
        return None;
      }
      ghost var before := State();
      var lifetime := Lifetime(fetched.status, ttl, errorTtl);
      entries := entries[key := Entry(fetched, clock + lifetime, t)];
      Reach(t, Removing(fetched), before, fetched);
      r := Withdraw(t, fetched);
    }

    method Withdraw(t: nat, fetched: Response) returns (r: Option<(Response, Disposition)>)
      requires Valid() && t < |tasks| && tasks[t].pc == Removing(fetched)
      modifies this
      ensures Valid() && Settled(t, old(tasks)[t], r)
      ensures r.Some? ==> r == Some((fetched, Miss))
      ensures old(trace) <= trace && (r.Some? ==> Path(t) == old(Path(t)) + [Removing(fetched), Sending(fetched)])
    {
      hide Leaves, Path, Route, CountsFor, Subscribers, SenderAlive, Lifetime;
      var key := tasks[t].key;
      var locked := Await(t);
      if !locked {
        return None;
      }
      ghost var before := State();
      inflight := inflight - {key};
      Reach(t, Sending(fetched), before, fetched);
      r := Send(t, fetched);
    }

    method Send(t: nat, fetched: Response) returns (r: Option<(Response, Disposition)>)
      requires Valid() && t < |tasks| && tasks[t].pc == Sending(fetched)
      modifies this
      ensures Valid() && Settled(t, old(tasks)[t], r)
      ensures r == Some((fetched, Miss))
      ensures old(trace) <= trace && Path(t) == old(Path(t)) + [Sending(fetched)]
    {
      hide Leaves, Path, Route, CountsFor, Subscribers, SenderAlive, Lifetime;
      Pause(t);
      ghost var before := State();
      inbox := inbox + map f | f in Subscribers(tasks, t) :: fetched;
      Reach(t, Done(Miss, fetched, t), before, fetched);
      r := Some((fetched, Miss));
    }

    /** Becomes the leader for the key, unless someone has or a fetch has just
        finished: both are looked at again with the in-flight lock held. */
    method Elect(t: nat, fetched: Response) returns (r: Option<(Response, Disposition)>)
      requires Valid() && t < |tasks| && tasks[t].pc == Electing
      modifies this
      ensures Valid() && Settled(t, old(tasks)[t], r)
      ensures r.Some? && r.value.1 == Miss ==> r.value.0 == fetched
      ensures old(trace) <= trace
    {
      hide Leaves, Path, Route, CountsFor, Subscribers, SenderAlive, Lifetime;
      var locked := Await(t);
      if !locked {
        return None;
      }
      ghost var before := State();
      holder := Some(t);
      Reach(t, Holding, before, fetched);
      r := LookAgain(t, fetched);
    }

    /** The in-flight map again, and the clock, with the lock held. */
    method LookAgain(t: nat, fetched: Response) returns (r: Option<(Response, Disposition)>)
      requires Valid() && t < |tasks| && tasks[t].pc == Holding
      modifies this
      ensures Valid() && Settled(t, old(tasks)[t], r)
      ensures r.Some? && r.value.1 == Miss ==> r.value.0 == fetched
      ensures old(trace) <= trace
    {
      hide Leaves, Path, Route, CountsFor, Subscribers, SenderAlive, Lifetime;
      Pause(t);
      ghost var before := State();
      var key := tasks[t].key;
      if key in inflight {
        var leader := inflight[key];
        holder := None;
        Reach(t, CountingFollow(leader), before, fetched);
        r := Follow(t, leader);
        return;
      }
      var now := clock;
      Reach(t, Rechecking(now), before, fetched);
      r := Recheck(t, now, fetched);
    }

    method Recheck(t: nat, now: nat, fetched: Response) returns (r: Option<(Response, Disposition)>)
      requires Valid() && t < |tasks| && tasks[t].pc == Rechecking(now)
      modifies this
      ensures Valid() && Settled(t, old(tasks)[t], r)
      ensures r.Some? && r.value.1 == Miss ==> r.value.0 == fetched
      ensures old(trace) <= trace && (r.Some? ==> r.value.1 != Collapsed)
      ensures r.Some? && r.value.1 == Hit ==>
                Path(t) == old(Path(t)) + [Rechecking(now), CountingHit(tasks[t].pc.response, tasks[t].pc.from)]
      ensures r.Some? && r.value.1 == Miss ==>
                Path(t) == old(Path(t)) + [Rechecking(now), Inserting, CountingOrigin, Fetching] + Publishes(fetched)
    {
      hide Leaves, Path, Route, CountsFor, Subscribers, SenderAlive, Lifetime;
      var key := tasks[t].key;
      var locked := Await(t);
      if !locked {
        return None;
      }
      ghost var before := State();
      if key in entries && entries[key].expiresAt > now {
        var entry := entries[key];
        holder := None;
        Reach(t, CountingHit(entry.response, entry.storedBy), before, fetched);
        r := ServeHit(t, entry.response);
        return;
      }
      Reach(t, Inserting, before, fetched);
      r := Insert(t, fetched);
    }

    /** Registers the call as the leader for its key, lets go of the lock and leads. */
    method Insert(t: nat, fetched: Response) returns (r: Option<(Response, Disposition)>)
      requires Valid() && t < |tasks| && tasks[t].pc == Inserting
      modifies this
      ensures Valid() && Settled(t, old(tasks)[t], r)
      ensures r.Some? ==> r == Some((fetched, Miss))
      ensures old(trace) <= trace
      ensures r.Some? ==> Path(t) == old(Path(t)) + [Inserting, CountingOrigin, Fetching] + Publishes(fetched)
    {
      hide Leaves, Path, Route, CountsFor, Subscribers, SenderAlive, Lifetime;
      Pause(t);
      ghost var before := State();
      inflight := inflight[tasks[t].key := t];
      holder := None;
      Reach(t, CountingOrigin, before, fetched);
      r := Lead(t, fetched);
    }

    /** The look at the entries, and then at the fetches in flight. */
    method Lookup(t: nat, now: nat, fetched: Response) returns (r: Option<(Response, Disposition)>)
      requires Valid() && t < |tasks| && tasks[t].pc == LookingUp(now)
      modifies this
      ensures Valid() && Settled(t, old(tasks)[t], r)
      ensures r.Some? && r.value.1 == Miss ==> r.value.0 == fetched
      ensures old(trace) <= trace
    {
      hide Leaves, Path, Route, CountsFor, Subscribers, SenderAlive, Lifetime;
      var key := tasks[t].key;
      var locked := Await(t);
      if !locked {
        return None;
      }
      ghost var before := State();
      if key in entries && entries[key].expiresAt > now {
        var entry := entries[key];
        Reach(t, CountingHit(entry.response, entry.storedBy), before, fetched);
        r := ServeHit(t, entry.response);
        return;
      }
      Reach(t, Joining, before, fetched);
      r := Join(t, fetched);
    }

    /** Follows a fetch in flight for the key, if there is one. */
    method Join(t: nat, fetched: Response) returns (r: Option<(Response, Disposition)>)
      requires Valid() && t < |tasks| && tasks[t].pc == Joining
      modifies this
      ensures Valid() && Settled(t, old(tasks)[t], r)
      ensures r.Some? && r.value.1 == Miss ==> r.value.0 == fetched
      ensures old(trace) <= trace
    {
      hide Leaves, Path, Route, CountsFor, Subscribers, SenderAlive, Lifetime;
      var key := tasks[t].key;
      var locked := Await(t);
      if !locked {
        return None;
      }
      ghost var before := State();
      if key in inflight {
        var leader := inflight[key];
        Reach(t, CountingFollow(leader), before, fetched);
        r := Follow(t, leader);
        return;
      }
      Reach(t, Electing, before, fetched);
      r := Elect(t, fetched);
    }

    /** Counts the request and reads the clock. */
    method Begin(t: nat, fetched: Response) returns (r: Option<(Response, Disposition)>)
      requires Valid() && t < |tasks| && tasks[t].pc == Starting
      modifies this
      ensures Valid() && Settled(t, old(tasks)[t], r)
      ensures r.Some? && r.value.1 == Miss ==> r.value.0 == fetched
      ensures old(trace) <= trace
    {
      hide Leaves, Path, Route, CountsFor, Subscribers, SenderAlive, Lifetime;
      var locked := Await(t);
      if !locked {
        return None;
      }
      ghost var before := State();
      var endpoint := tasks[t].endpoint;
      var tally := CountsFor(counts, endpoint);
      counts := counts[endpoint := tally.(client := tally.client + 1)];
      Reach(t, ReadingClock, before, fetched);
      Pause(t);
      before := State();
      var now := clock;
      Reach(t, LookingUp(now), before, fetched);
      r := Lookup(t, now, fetched);
    }

    /** A new call. */
    method Arrive(endpoint: string, key: string, ttl: nat)
      requires Valid()
      modifies this
      ensures Valid() && old(trace) <= trace && tasks == old(tasks) + [Task(endpoint, key, ttl, Starting)]
    {
      hide Legal, Exec;
      Extended(Start(), trace, Call(endpoint, key, ttl));
      trace := trace + [Call(endpoint, key, ttl)];
      tasks := tasks + [Task(endpoint, key, ttl, Starting)];
    }

    /** A call got where it stands by its own steps, and answered from its own key. */
    lemma Routed(t: nat)
      requires Valid() && t < |tasks|
      ensures Route(Path(t), tasks[t].pc)
      ensures tasks[t].pc.Done? ==> AnsweredBy(State(), t, tasks[t].pc)
    {
      hide Route, Visits;
      CallsFollowTheirRoute(Start(), trace, t);
      Reached();
      if tasks[t].pc.Done? {
        AnsweredFromOwnKey(State(), t);
      }
    }

    /** One `serve` call, `fetched` being what the origin answers if it is asked.
        In any interleaving a call that returns was answered from its own key: with
        a stored response, with its own fetch, or with its leader's. */
    method Serve(endpoint: string, key: string, ttl: nat, fetched: Response)
      returns (r: Option<(Response, Disposition)>, t: nat)
      requires Valid()
      modifies this
      ensures Valid() && t == |old(tasks)| && Settled(t, Task(endpoint, key, ttl, Starting), r)
      ensures r.Some? ==> AnsweredBy(State(), t, tasks[t].pc)
      ensures r.Some? && r.value.1 == Miss ==> r.value.0 == fetched
      ensures old(trace) <= trace && Route(Path(t), tasks[t].pc)
    {
      hide Leaves, Path, Route, CountsFor, Subscribers, SenderAlive, Lifetime;
      t := |tasks|;
      Arrive(endpoint, key, ttl);
      r := Begin(t, fetched);
      Routed(t);
    }
  }
}
