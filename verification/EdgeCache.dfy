/** The harness's single-flight cache as a state machine: any number of concurrent
    `serve` calls, each a program counter stepping through the lock acquisitions,
    reads and writes of the call; a clock that only moves forward; and calls that
    may be dropped at any point where they wait. */
module EdgeCache {
  import opened Common

  datatype Response = Response(status: nat, body: string)

  datatype Disposition = Hit | Miss | Collapsed

  /** A cached response; `storedBy` is bookkeeping. */
  datatype Entry = Entry(response: Response, expiresAt: nat, storedBy: nat)

  datatype Counts = Counts(client: nat, origin: nat, hits: nat, collapsed: nat)

  /** Where a call is. `from` in the answers is bookkeeping: the call whose fetch
      produced the response. */
  datatype Pc =
    | Starting
    | ReadingClock
    | LookingUp(now: nat)
    | Joining
    | Electing
    | Holding
    | Rechecking(now: nat)
    | Inserting
    | CountingHit(response: Response, from: nat)
    | CountingFollow(leader: nat)
    | Waiting(leader: nat)
    | CountingOrigin
    | Fetching
    | Storing(response: Response)
    | Removing(response: Response)
    | Sending(response: Response)
    | Done(disposition: Disposition, response: Response, from: nat)
    | Dropped(at: Pc)

  datatype Task = Task(endpoint: string, key: string, ttl: nat, pc: Pc)

  /** `inflight` maps a key to the call whose channel it holds; `holder` is the call
      holding the in-flight lock across a wait; `inbox` is what was delivered to
      each subscribed receiver. */
  datatype Cache = Cache(
    errorTtl: nat,
    clock: nat,
    entries: map<string, Entry>,
    inflight: map<string, nat>,
    holder: Option<nat>,
    inbox: map<nat, Response>,
    counts: map<string, Counts>,
    tasks: seq<Task>)

  datatype Step = Tick(passed: nat) | Call(endpoint: string, key: string, ttl: nat) | Act(task: nat, fetched: Response) | Drop(task: nat)

  const COLLAPSE_FAILED: Response := Response(502, "collapse failed")

  function CountsFor(counts: map<string, Counts>, endpoint: string): Counts
  {
    if endpoint in counts then counts[endpoint] else Counts(0, 0, 0, 0)
  }

  /** An error outlives its own max-age. */
  function Lifetime(status: nat, ttl: nat, errorTtl: nat): nat
  {
    if status >= 400 then Max(ttl, errorTtl) else ttl
  }

  /** An entry a reader at `now` may serve. */
  predicate Fresh(entries: map<string, Entry>, key: string, now: nat)
  {
    key in entries && entries[key].expiresAt > now
  }

  /** Whether any handle that could still send on a call's channel is left. */
  predicate SenderAlive(c: Cache, leader: nat)
  {
    || (leader < |c.tasks| && !c.tasks[leader].pc.Done? && !c.tasks[leader].pc.Dropped?)
    || exists key :: key in c.inflight && c.inflight[key] == leader
  }

  predicate Follows(pc: Pc, leader: nat)
  {
    (pc.CountingFollow? || pc.Waiting?) && pc.leader == leader
  }

  /** The receivers subscribed to a call's channel. */
  function Subscribers(tasks: seq<Task>, leader: nat): set<nat>
  {
    set f | 0 <= f < |tasks| && Follows(tasks[f].pc, leader)
  }

  /** Where a call goes next. */
  function Next(c: Cache, t: nat, fetched: Response): Pc
    requires t < |c.tasks|
  {
    var key := c.tasks[t].key;
    match c.tasks[t].pc
    case Starting => ReadingClock
    case ReadingClock => LookingUp(c.clock)
    case LookingUp(now) =>
      if Fresh(c.entries, key, now) then CountingHit(c.entries[key].response, c.entries[key].storedBy) else Joining
    case Joining => if key in c.inflight then CountingFollow(c.inflight[key]) else Electing
    case Electing => Holding
    case Holding => if key in c.inflight then CountingFollow(c.inflight[key]) else Rechecking(c.clock)
    case Rechecking(now) =>
      if Fresh(c.entries, key, now) then CountingHit(c.entries[key].response, c.entries[key].storedBy) else Inserting
    case Inserting => CountingOrigin
    case CountingHit(response, from) => Done(Hit, response, from)
    case CountingFollow(leader) => Waiting(leader)
    case Waiting(leader) => Done(Collapsed, if t in c.inbox then c.inbox[t] else COLLAPSE_FAILED, leader)
    case CountingOrigin => Fetching
    case Fetching => Storing(fetched)
    case Storing(response) => Removing(response)
    case Removing(response) => Sending(response)
    case Sending(response) => Done(Miss, response, t)
    case Done(_, _, _) => c.tasks[t].pc
    case Dropped(_) => c.tasks[t].pc
  }

  /** The in-flight lock is kept across a wait from `Electing` until the call
      follows, hits or inserts. */
  function NextHolder(pc: Pc, next: Pc, t: nat, holder: Option<nat>): Option<nat>
  {
    if pc.Electing? then Some(t)
    else if pc.Inserting? || (pc.Holding? && !next.Rechecking?) || (pc.Rechecking? && !next.Inserting?) then None
    else holder
  }

  predicate Counting(pc: Pc) { pc.Starting? || pc.CountingHit? || pc.CountingFollow? || pc.CountingOrigin? }

  function NextCounts(pc: Pc, counts: Counts): Counts
  {
    match pc
    case Starting => counts.(client := counts.client + 1)
    case CountingHit(_, _) => counts.(hits := counts.hits + 1)
    case CountingFollow(_) => counts.(collapsed := counts.collapsed + 1)
    case CountingOrigin => counts.(origin := counts.origin + 1)
    case _ => counts
  }

  /** One step of call `t`: an atomic read of the clock or a map, an update of a
      map or a tally, or a send. */
  function Advance(c: Cache, t: nat, fetched: Response): Cache
    requires t < |c.tasks|
  {
    var task := c.tasks[t];
    var pc, key, next := task.pc, task.key, Next(c, t, fetched);
    c.(tasks := c.tasks[t := task.(pc := next)],
       holder := NextHolder(pc, next, t, c.holder),
       counts := if Counting(pc) then c.counts[task.endpoint := NextCounts(pc, CountsFor(c.counts, task.endpoint))] else c.counts,
       entries := if pc.Storing? then c.entries[key := Stored(c, t, pc.response)] else c.entries,
       inflight := if pc.Inserting? then c.inflight[key := t] else if pc.Removing? then c.inflight - {key} else c.inflight,
       inbox := if pc.Sending? then c.inbox + map f | f in Subscribers(c.tasks, t) :: pc.response else c.inbox)
  }

  function Stored(c: Cache, t: nat, response: Response): Entry
    requires t < |c.tasks|
  {
    Entry(response, c.clock + Lifetime(response.status, c.tasks[t].ttl, c.errorTtl), t)
  }

  /** The steps that must take the in-flight lock, and the one that must receive. */
  predicate CanAdvance(c: Cache, t: nat)
    requires t < |c.tasks|
  {
    match c.tasks[t].pc
    case Joining => c.holder.None?
    case Electing => c.holder.None?
    case Removing(_) => c.holder.None?
    case Waiting(leader) => t in c.inbox || !SenderAlive(c, leader)
    case Done(_, _, _) => false
    case Dropped(_) => false
    case _ => true
  }

  /** Where a call waits on a lock, a receiver or the origin, and so can be dropped. */
  predicate Awaits(pc: Pc)
  {
    pc.Starting? || pc.LookingUp? || pc.Joining? || pc.Electing? || pc.Rechecking? || pc.Waiting? || pc.Fetching?
    || pc.Storing? || pc.Removing?
  }

  function Apply(c: Cache, step: Step): Cache
  {
    match step
    case Tick(passed) => c.(clock := c.clock + passed)
    case Call(endpoint, key, ttl) => c.(tasks := c.tasks + [Task(endpoint, key, ttl, Starting)])
    case Act(t, fetched) => if t < |c.tasks| then Advance(c, t, fetched) else c
    case Drop(t) =>
      if t < |c.tasks|
      then c.(tasks := c.tasks[t := c.tasks[t].(pc := Dropped(c.tasks[t].pc))],
              holder := if c.holder == Some(t) then None else c.holder)
      else c
  }

  predicate Enabled(c: Cache, step: Step)
  {
    match step
    case Tick(_) => true
    case Call(_, _, _) => true
    case Act(t, _) => t < |c.tasks| && CanAdvance(c, t)
    case Drop(t) => t < |c.tasks| && Awaits(c.tasks[t].pc)
  }

  function Exec(c: Cache, run: seq<Step>): Cache
  {
    if run == [] then c else Apply(Exec(c, run[..|run| - 1]), run[|run| - 1])
  }

  predicate Legal(c: Cache, run: seq<Step>)
  {
    run == [] || (Legal(c, run[..|run| - 1]) && Enabled(Exec(c, run[..|run| - 1]), run[|run| - 1]))
  }

  predicate Empty(c: Cache)
  {
    c.entries == map[] && c.inflight == map[] && c.holder == None && c.inbox == map[] && c.counts == map[] && c.tasks == []
  }

  // ---- The invariant ----------------------------------------------------------

  /** The step a call reached, whether or not it was dropped there. */
  function Reached(pc: Pc): Pc { if pc.Dropped? then Reached(pc.at) else pc }

  /** The response a call's own fetch produced, once it has. */
  function Fetched(pc: Pc): Option<Response>
  {
    match Reached(pc)
    case Storing(r) => Some(r)
    case Removing(r) => Some(r)
    case Sending(r) => Some(r)
    case Done(d, r, _) => if d == Miss then Some(r) else None
    case _ => None
  }

  /** Between registering in the in-flight map and unregistering. */
  predicate Leads(pc: Pc)
  {
    pc.CountingOrigin? || pc.Fetching? || pc.Storing? || pc.Removing?
  }

  /** Call `l`, for this key, fetched exactly this response. */
  predicate Produced(c: Cache, l: nat, key: string, r: Response)
  {
    l < |c.tasks| && c.tasks[l].key == key && Fetched(c.tasks[l].pc) == Some(r)
  }

  predicate Stale(c: Cache, key: string) { !Fresh(c.entries, key, c.clock) }

  predicate Registered(c: Cache, key: string, l: nat) { key in c.inflight && c.inflight[key] == l }

  /** A receiver either has its leader's response or is still owed it. */
  predicate FollowsOk(c: Cache, t: nat, l: nat)
    requires t < |c.tasks|
  {
    && l < |c.tasks| && c.tasks[l].key == c.tasks[t].key
    && (if t in c.inbox then c.tasks[l].pc.Done? && Produced(c, l, c.tasks[t].key, c.inbox[t])
        else Registered(c, c.tasks[t].key, l) || c.tasks[l].pc.Sending?)
  }

  predicate TaskOk(c: Cache, t: nat)
    requires t < |c.tasks|
  {
    var key := c.tasks[t].key;
    match c.tasks[t].pc
    case LookingUp(now) => now <= c.clock
    case Holding => c.holder == Some(t)
    case Rechecking(now) => c.holder == Some(t) && now <= c.clock && key !in c.inflight
    case Inserting => c.holder == Some(t) && key !in c.inflight && Stale(c, key)
    case CountingHit(r, from) => Produced(c, from, key, r)
    case CountingFollow(l) => FollowsOk(c, t, l)
    case Waiting(l) => FollowsOk(c, t, l)
    case CountingOrigin => Registered(c, key, t) && Stale(c, key)
    case Fetching => Registered(c, key, t) && Stale(c, key)
    case Storing(_) => Registered(c, key, t) && Stale(c, key)
    case Removing(_) => Registered(c, key, t)
    case Done(d, r, from) =>
      && Produced(c, from, key, r) && (d == Miss ==> from == t)
      && (d == Collapsed ==> c.tasks[from].pc == Done(Miss, r, from))
    case _ => true
  }

  predicate TasksOk(c: Cache)
  {
    forall t :: 0 <= t < |c.tasks| ==> TaskOk(c, t)
  }

  predicate HolderOk(c: Cache)
  {
    c.holder.Some? ==>
      c.holder.value < |c.tasks| &&
      var pc := c.tasks[c.holder.value].pc; pc.Holding? || pc.Rechecking? || pc.Inserting?
  }

  /** Every registered key belongs to a call for it that has not unregistered: one
      still leading, or one dropped while it led. */
  predicate InflightOk(c: Cache)
  {
    forall key :: key in c.inflight ==>
      var l := c.inflight[key];
      l < |c.tasks| && c.tasks[l].key == key &&
      (Leads(c.tasks[l].pc) || (c.tasks[l].pc.Dropped? && Leads(c.tasks[l].pc.at)))
  }

  predicate EntriesOk(c: Cache)
  {
    forall key :: key in c.entries ==> Produced(c, c.entries[key].storedBy, key, c.entries[key].response)
  }

  predicate Received(pc: Pc)
  {
    pc.CountingFollow? || pc.Waiting? || (pc.Done? && pc.disposition == Collapsed) || (pc.Dropped? && pc.at.Waiting?)
  }

  predicate InboxOk(c: Cache)
  {
    forall f :: f in c.inbox ==> f < |c.tasks| && Received(c.tasks[f].pc)
  }

  datatype Tally = Client | Origin | Hits | Collapses | Undecided

  /** What a call has been counted as; `Undecided` is counted as a client request
      and as nothing else yet. */
  predicate CountedAs(pc: Pc, tally: Tally)
  {
    var at := Reached(pc);
    var origin := at.Fetching? || at.Storing? || at.Removing? || at.Sending? || (at.Done? && at.disposition == Miss);
    var hit := at.Done? && at.disposition == Hit;
    var collapsed := at.Waiting? || (at.Done? && at.disposition == Collapsed);
    match tally
    case Client => !at.Starting?
    case Origin => origin
    case Hits => hit
    case Collapses => collapsed
    case Undecided => !at.Starting? && !origin && !hit && !collapsed
  }

  /** How many calls on an endpoint have been counted as something. */
  function Number(tasks: seq<Task>, endpoint: string, tally: Tally): nat
  {
    if tasks == [] then 0
    else
      var last := tasks[|tasks| - 1];
      Number(tasks[..|tasks| - 1], endpoint, tally) +
      if last.endpoint == endpoint && CountedAs(last.pc, tally) then 1 else 0
  }

  ghost predicate CountsOk(c: Cache)
  {
    forall endpoint :: CountsFor(c.counts, endpoint) == NumbersOf(c.tasks, endpoint)
  }

  function NumbersOf(tasks: seq<Task>, endpoint: string): Counts
  {
    Counts(Number(tasks, endpoint, Client), Number(tasks, endpoint, Origin),
           Number(tasks, endpoint, Hits), Number(tasks, endpoint, Collapses))
  }

  ghost predicate Shape(c: Cache)
  {
    TasksOk(c) && HolderOk(c) && InflightOk(c) && EntriesOk(c) && InboxOk(c)
  }

  ghost predicate Inv(c: Cache) { Shape(c) && CountsOk(c) }

  // ---- Counting ----------------------------------------------------------------

  lemma {:induction false} NumberUpdate(tasks: seq<Task>, t: nat, task: Task, endpoint: string, tally: Tally)
    requires t < |tasks| && task.endpoint == tasks[t].endpoint
    ensures Number(tasks[t := task], endpoint, tally)
            == Number(tasks, endpoint, tally)
               + (if task.endpoint == endpoint && CountedAs(task.pc, tally) then 1 else 0)
               - (if task.endpoint == endpoint && CountedAs(tasks[t].pc, tally) then 1 else 0)
  {
    var n := |tasks| - 1;
    if t == n {
      assert tasks[t := task][..n] == tasks[..n];
    } else {
      NumberUpdate(tasks[..n], t, task, endpoint, tally);
      assert tasks[t := task][..n] == tasks[..n][t := task];
    }
  }

  /** Every counted request is counted as exactly one thing. */
  lemma {:induction false} EachCountedOnce(tasks: seq<Task>, endpoint: string)
    ensures Number(tasks, endpoint, Client) ==
            Number(tasks, endpoint, Origin) + Number(tasks, endpoint, Hits)
            + Number(tasks, endpoint, Collapses) + Number(tasks, endpoint, Undecided)
  {
    if tasks != [] {
      EachCountedOnce(tasks[..|tasks| - 1], endpoint);
    }
  }

  /** One call moved on, and its endpoint's tallies with it. */
  lemma CountsMove(c: Cache, t: nat, pc: Pc, counts: Counts, c': Cache)
    requires CountsOk(c) && t < |c.tasks| && c'.tasks == c.tasks[t := c.tasks[t].(pc := pc)]
    requires forall e :: CountsFor(c'.counts, e) == if e == c.tasks[t].endpoint then counts else CountsFor(c.counts, e)
    requires counts == CountsAfter(CountsFor(c.counts, c.tasks[t].endpoint), c.tasks[t].pc, pc)
    requires forall k :: CountedAs(c.tasks[t].pc, k) && k != Undecided ==> CountedAs(pc, k)
    ensures CountsOk(c')
  {
    forall endpoint
      ensures CountsFor(c'.counts, endpoint) == NumbersOf(c'.tasks, endpoint)
    {
      var task := c.tasks[t].(pc := pc);
      NumberUpdate(c.tasks, t, task, endpoint, Client);
      NumberUpdate(c.tasks, t, task, endpoint, Origin);
      NumberUpdate(c.tasks, t, task, endpoint, Hits);
      NumberUpdate(c.tasks, t, task, endpoint, Collapses);
      assert CountsFor(c.counts, endpoint) == NumbersOf(c.tasks, endpoint);
    }
  }

  function CountsAfter(counts: Counts, before: Pc, after: Pc): Counts
  {
    Counts(counts.client + (if CountedAs(after, Client) && !CountedAs(before, Client) then 1 else 0),
           counts.origin + (if CountedAs(after, Origin) && !CountedAs(before, Origin) then 1 else 0),
           counts.hits + (if CountedAs(after, Hits) && !CountedAs(before, Hits) then 1 else 0),
           counts.collapsed + (if CountedAs(after, Collapses) && !CountedAs(before, Collapses) then 1 else 0))
  }

  lemma NextCounted(c: Cache, t: nat, fetched: Response, counts: Counts)
    requires t < |c.tasks| && CanAdvance(c, t)
    ensures var pc, next := c.tasks[t].pc, Next(c, t, fetched);
            && NextCounts(pc, counts) == CountsAfter(counts, pc, next)
            && (Counting(pc) || NextCounts(pc, counts) == counts)
            && forall k :: CountedAs(pc, k) && k != Undecided ==> CountedAs(next, k)
  {
    hide Fresh, SenderAlive;
    var pc, next := c.tasks[t].pc, Next(c, t, fetched);
    assert Reached(pc) == pc && Reached(next) == next;
  }

  lemma CountsKeep(c: Cache, t: nat, fetched: Response)
    requires CountsOk(c) && t < |c.tasks| && CanAdvance(c, t)
    ensures CountsOk(Advance(c, t, fetched))
  {
    hide CountsOk, Next, NextCounts, CountsAfter, CountedAs, Subscribers, Counting;
    NextCounted(c, t, fetched, CountsFor(c.counts, c.tasks[t].endpoint));
    CountsMove(c, t, Next(c, t, fetched), NextCounts(c.tasks[t].pc, CountsFor(c.counts, c.tasks[t].endpoint)),
               Advance(c, t, fetched));
  }

  // ---- Each step keeps the invariant --------------------------------------------

  /** `c'` moved call `t` alone, and nothing it shares with the others. */
  ghost predicate MovedAlone(c: Cache, t: nat, c': Cache)
    requires t < |c.tasks|
  {
    && |c'.tasks| == |c.tasks| && c'.tasks == c.tasks[t := c.tasks[t].(pc := c'.tasks[t].pc)]
    && c'.clock == c.clock && c'.errorTtl == c.errorTtl
    && c'.entries == c.entries && c'.inflight == c.inflight && c'.inbox == c.inbox
    && (forall u :: u != t ==> (c'.holder == Some(u) <==> c.holder == Some(u)))
  }

  /** A move that takes back nothing other calls rely on. */
  lemma MoveKeepsOthers(c: Cache, t: nat, c': Cache)
    requires Shape(c) && t < |c.tasks| && MovedAlone(c, t, c')
    requires Fetched(c.tasks[t].pc).Some? ==> Fetched(c'.tasks[t].pc) == Fetched(c.tasks[t].pc)
    requires !c.tasks[t].pc.Sending? && !c.tasks[t].pc.Done?
    requires Leads(c.tasks[t].pc) ==> Leads(c'.tasks[t].pc) || (c'.tasks[t].pc.Dropped? && c'.tasks[t].pc.at == c.tasks[t].pc)
    requires c.tasks[t].pc.Dropped? ==> c'.tasks[t].pc == c.tasks[t].pc
    requires Received(c.tasks[t].pc) ==> Received(c'.tasks[t].pc)
    ensures forall u :: 0 <= u < |c'.tasks| && u != t ==> TaskOk(c', u)
    ensures InflightOk(c') && EntriesOk(c') && InboxOk(c')
    ensures TaskOk(c', t) && HolderOk(c') ==> Shape(c')
  {
    forall l, key, r | Produced(c, l, key, r)
      ensures Produced(c', l, key, r)
    {
    }
    forall u | 0 <= u < |c'.tasks| && u != t
      ensures TaskOk(c', u)
    {
      assert TaskOk(c, u) && c'.tasks[u] == c.tasks[u];
    }
  }

  /** What the invariant says of one call and its key. */
  lemma ShapeAt(c: Cache, t: nat)
    requires Shape(c) && t < |c.tasks|
    ensures TaskOk(c, t) && HolderOk(c)
    ensures var key := c.tasks[t].key;
            && (key in c.entries ==> Produced(c, c.entries[key].storedBy, key, c.entries[key].response))
            && (key in c.inflight ==>
                  var l := c.inflight[key];
                  l < |c.tasks| && c.tasks[l].key == key)
    ensures t in c.inbox ==> Received(c.tasks[t].pc)
  {
  }

  lemma KeepsStarting(c: Cache, t: nat, fetched: Response)
    requires Shape(c) && t < |c.tasks| && CanAdvance(c, t)
    requires c.tasks[t].pc.Starting? || c.tasks[t].pc.ReadingClock?
    ensures Shape(Advance(c, t, fetched))
  {
    hide Shape;
    ShapeAt(c, t);
    MoveKeepsOthers(c, t, Advance(c, t, fetched));
  }

  lemma KeepsLookup(c: Cache, t: nat, fetched: Response)
    requires Shape(c) && t < |c.tasks| && CanAdvance(c, t)
    requires c.tasks[t].pc.LookingUp? || c.tasks[t].pc.CountingHit?
    ensures Shape(Advance(c, t, fetched))
  {
    hide Shape;
    ShapeAt(c, t);
    MoveKeepsOthers(c, t, Advance(c, t, fetched));
  }

  lemma KeepsJoining(c: Cache, t: nat, fetched: Response)
    requires Shape(c) && t < |c.tasks| && CanAdvance(c, t)
    requires c.tasks[t].pc.Joining? || c.tasks[t].pc.Electing?
    ensures Shape(Advance(c, t, fetched))
  {
    hide Shape;
    ShapeAt(c, t);
    MoveKeepsOthers(c, t, Advance(c, t, fetched));
  }

  lemma KeepsHolding(c: Cache, t: nat, fetched: Response)
    requires Shape(c) && t < |c.tasks| && CanAdvance(c, t)
    requires c.tasks[t].pc.Holding?
    ensures Shape(Advance(c, t, fetched))
  {
    hide Shape;
    ShapeAt(c, t);
    MoveKeepsOthers(c, t, Advance(c, t, fetched));
  }

  lemma KeepsRechecking(c: Cache, t: nat, fetched: Response)
    requires Shape(c) && t < |c.tasks| && CanAdvance(c, t)
    requires c.tasks[t].pc.Rechecking?
    ensures Shape(Advance(c, t, fetched))
  {
    hide Shape;
    ShapeAt(c, t);
    MoveKeepsOthers(c, t, Advance(c, t, fetched));
  }

  lemma KeepsFollows(c: Cache, t: nat, fetched: Response)
    requires Shape(c) && t < |c.tasks| && CanAdvance(c, t)
    requires var pc := c.tasks[t].pc; pc.CountingFollow? || pc.Waiting?
    ensures Shape(Advance(c, t, fetched))
  {
    var c' := Advance(c, t, fetched);
    assert TaskOk(c, t) && TaskOk(c, c.tasks[t].pc.leader);
    MoveKeepsOthers(c, t, c');
  }

  lemma KeepsFetches(c: Cache, t: nat, fetched: Response)
    requires Shape(c) && t < |c.tasks| && CanAdvance(c, t)
    requires var pc := c.tasks[t].pc; pc.CountingOrigin? || pc.Fetching?
    ensures Shape(Advance(c, t, fetched))
  {
    var c' := Advance(c, t, fetched);
    assert TaskOk(c, t);
    MoveKeepsOthers(c, t, c');
  }

  lemma KeepsInserting(c: Cache, t: nat, fetched: Response)
    requires Shape(c) && t < |c.tasks| && c.tasks[t].pc.Inserting?
    ensures Shape(Advance(c, t, fetched))
  {
    var c' := Advance(c, t, fetched);
    assert TaskOk(c, t);
    MoveKeepsOthers(c, t, c'.(inflight := c.inflight));
    forall u | 0 <= u < |c'.tasks|
      ensures TaskOk(c', u)
    {
      assert u != t ==> TaskOk(c'.(inflight := c.inflight), u);
    }
  }

  /** No one but the registered leader of a key relies on its entry. */
  lemma KeepsStoring(c: Cache, t: nat, fetched: Response)
    requires Shape(c) && t < |c.tasks| && c.tasks[t].pc.Storing?
    ensures Shape(Advance(c, t, fetched))
  {
    var c' := Advance(c, t, fetched);
    assert TaskOk(c, t);
    MoveKeepsOthers(c, t, c'.(entries := c.entries));
    forall u | 0 <= u < |c'.tasks|
      ensures TaskOk(c', u)
    {
      assert u != t ==> TaskOk(c'.(entries := c.entries), u);
    }
  }

  /** Every follower of the call that unregisters is still owed its response. */
  lemma KeepsRemoving(c: Cache, t: nat, fetched: Response)
    requires Shape(c) && t < |c.tasks| && c.tasks[t].pc.Removing? && CanAdvance(c, t)
    ensures Shape(Advance(c, t, fetched))
  {
    var c' := Advance(c, t, fetched);
    assert TaskOk(c, t);
    forall l, key, r | Produced(c, l, key, r)
      ensures Produced(c', l, key, r)
    {
    }
    forall u | 0 <= u < |c'.tasks|
      ensures TaskOk(c', u)
    {
      assert TaskOk(c, u);
    }
  }

  lemma KeepsSending(c: Cache, t: nat, fetched: Response)
    requires Shape(c) && t < |c.tasks| && c.tasks[t].pc.Sending?
    ensures Shape(Advance(c, t, fetched))
  {
    var c' := Advance(c, t, fetched);
    assert TaskOk(c, t);
    forall l, key, r | Produced(c, l, key, r)
      ensures Produced(c', l, key, r)
    {
    }
    forall u | 0 <= u < |c'.tasks|
      ensures TaskOk(c', u)
    {
      assert TaskOk(c, u);
    }
  }

  lemma ShapeKeeps(c: Cache, t: nat, fetched: Response)
    requires Shape(c) && t < |c.tasks| && CanAdvance(c, t)
    ensures Shape(Advance(c, t, fetched))
  {
    hide Shape, Advance, TasksOk, HolderOk, InflightOk, EntriesOk, InboxOk;
    match c.tasks[t].pc
    case CountingFollow(_) => KeepsFollows(c, t, fetched);
    case Waiting(_) => KeepsFollows(c, t, fetched);
    case CountingOrigin => KeepsFetches(c, t, fetched);
    case Fetching => KeepsFetches(c, t, fetched);
    case Inserting => KeepsInserting(c, t, fetched);
    case Storing(_) => KeepsStoring(c, t, fetched);
    case Removing(_) => KeepsRemoving(c, t, fetched);
    case Sending(_) => KeepsSending(c, t, fetched);
    case Joining => KeepsJoining(c, t, fetched);
    case Electing => KeepsJoining(c, t, fetched);
    case Holding => KeepsHolding(c, t, fetched);
    case Rechecking(_) => KeepsRechecking(c, t, fetched);
    case LookingUp(_) => KeepsLookup(c, t, fetched);
    case CountingHit(_, _) => KeepsLookup(c, t, fetched);
    case _ => KeepsStarting(c, t, fetched);
  }

  lemma DropKeepsCounts(c: Cache, t: nat, c': Cache)
    requires CountsOk(c) && t < |c.tasks| && c'.counts == c.counts
    requires c'.tasks == c.tasks[t := c.tasks[t].(pc := Dropped(c.tasks[t].pc))]
    ensures CountsOk(c')
  {
    var tally := CountsFor(c.counts, c.tasks[t].endpoint);
    CountsMove(c, t, Dropped(c.tasks[t].pc), tally, c');
  }

  lemma KeepsDrop(c: Cache, t: nat)
    requires Inv(c) && Enabled(c, Drop(t))
    ensures Inv(Apply(c, Drop(t)))
  {
    var c' := Apply(c, Drop(t));
    assert Shape(c') by {
      hide Shape, CountsOk;
      ShapeAt(c, t);
      MoveKeepsOthers(c, t, c');
    }
    assert CountsOk(c') by {
      DropKeepsCounts(c, t, c');
    }
  }

  lemma KeepsTick(c: Cache, passed: nat)
    requires Inv(c)
    ensures Inv(Apply(c, Tick(passed)))
  {
    var c' := Apply(c, Tick(passed));
    forall t | 0 <= t < |c'.tasks|
      ensures TaskOk(c', t)
    {
      assert TaskOk(c, t);
    }
  }

  lemma KeepsCall(c: Cache, endpoint: string, key: string, ttl: nat)
    requires Inv(c)
    ensures Inv(Apply(c, Call(endpoint, key, ttl)))
  {
    var c' := Apply(c, Call(endpoint, key, ttl));
    assert c'.tasks[..|c.tasks|] == c.tasks;
    forall t | 0 <= t < |c'.tasks|
      ensures TaskOk(c', t)
    {
      if t < |c.tasks| {
        assert TaskOk(c, t);
      }
    }
  }

  lemma StepKeepsInv(c: Cache, step: Step)
    requires Inv(c) && Enabled(c, step)
    ensures Inv(Apply(c, step))
  {
    match step
    case Tick(passed) => KeepsTick(c, passed);
    case Call(endpoint, key, ttl) => KeepsCall(c, endpoint, key, ttl);
    case Act(t, fetched) =>
      hide Advance;
      ShapeKeeps(c, t, fetched);
      CountsKeep(c, t, fetched);
    case Drop(t) => KeepsDrop(c, t);
  }

  lemma {:induction false} RunKeepsInv(c: Cache, run: seq<Step>)
    requires Inv(c) && Legal(c, run)
    ensures Inv(Exec(c, run))
  {
    hide Inv;
    if run != [] {
      RunKeepsInv(c, run[..|run| - 1]);
      StepKeepsInv(Exec(c, run[..|run| - 1]), run[|run| - 1]);
    }
  }

  lemma EmptyHolds(c: Cache)
    requires Empty(c)
    ensures Inv(c)
  {
  }

  ghost predicate Reachable(c: Cache)
  {
    exists start, run :: Empty(start) && Legal(start, run) && Exec(start, run) == c
  }

  lemma ReachableHolds(c: Cache)
    requires Reachable(c)
    ensures Inv(c)
  {
    var start, run :| Empty(start) && Legal(start, run) && Exec(start, run) == c;
    EmptyHolds(start);
    RunKeepsInv(start, run);
  }

  lemma {:induction false} ExecAppend(c: Cache, a: seq<Step>, b: seq<Step>)
    ensures Exec(c, a + b) == Exec(Exec(c, a), b)
    ensures Legal(c, a) && Legal(Exec(c, a), b) ==> Legal(c, a + b)
  {
    if b == [] {
      assert a + b == a;
    } else {
      ExecAppend(c, a, b[..|b| - 1]);
      assert (a + b)[..|a + b| - 1] == a + b[..|b| - 1];
    }
  }

  // ---- What the cache promises ----------------------------------------------------

  /** One fetch in flight per key, in every interleaving. */
  lemma OneFetchPerKey(c: Cache, t: nat, u: nat)
    requires Reachable(c) && t < |c.tasks| && u < |c.tasks|
    requires Leads(c.tasks[t].pc) && Leads(c.tasks[u].pc) && c.tasks[t].key == c.tasks[u].key
    ensures t == u
  {
    hide Shape, Reachable;
    ReachableHolds(c);
    ShapeAt(c, t);
    ShapeAt(c, u);
  }

  /** Whatever a finished call returned is what the fetch of some call for the same
      key returned: a miss its own, a follower that of the leader it subscribed to,
      which itself finished with it. The collapse-failed answer is never given,
      unless it is what the origin said. */
  lemma AnsweredFromOwnKey(c: Cache, t: nat)
    requires Reachable(c) && t < |c.tasks| && c.tasks[t].pc.Done?
    ensures AnsweredBy(c, t, c.tasks[t].pc)
  {
    ReachableHolds(c);
    assert TaskOk(c, t);
  }

  predicate AnsweredBy(c: Cache, t: nat, pc: Pc)
    requires t < |c.tasks| && pc.Done?
  {
    && pc.from < |c.tasks| && c.tasks[pc.from].key == c.tasks[t].key
    && Fetched(c.tasks[pc.from].pc) == Some(pc.response)
    && (pc.disposition == Miss ==> pc.from == t)
    && (pc.disposition == Collapsed ==> c.tasks[pc.from].pc == Done(Miss, pc.response, pc.from))
  }

  /** Per endpoint, every client request is a hit, a follower, an origin request or
      still undecided; so once all calls have settled the three tallies add up to
      the client requests. */
  lemma TalliesAddUp(c: Cache, endpoint: string)
    requires Reachable(c)
    ensures var n := CountsFor(c.counts, endpoint);
            && n.client == n.hits + n.collapsed + n.origin + Number(c.tasks, endpoint, Undecided)
            && ((forall t :: 0 <= t < |c.tasks| ==> c.tasks[t].pc.Done?) ==> n.client == n.hits + n.collapsed + n.origin)
  {
    ReachableHolds(c);
    EachCountedOnce(c.tasks, endpoint);
    if forall t :: 0 <= t < |c.tasks| ==> c.tasks[t].pc.Done? {
      NoneUndecided(c.tasks, endpoint);
    }
  }

  lemma {:induction false} NoneUndecided(tasks: seq<Task>, endpoint: string)
    requires forall t :: 0 <= t < |tasks| ==> tasks[t].pc.Done?
    ensures Number(tasks, endpoint, Undecided) == 0
  {
    if tasks != [] {
      NoneUndecided(tasks[..|tasks| - 1], endpoint);
      assert tasks[|tasks| - 1].pc.Done?;
    }
  }

  // ---- Freshness over runs --------------------------------------------------------

  /** Entries are only ever replaced by entries that expire no earlier. */
  lemma ExpiryNeverDrops(c: Cache, step: Step, key: string)
    requires Inv(c) && Enabled(c, step) && key in c.entries
    ensures var c' := Apply(c, step);
            key in c'.entries && c'.entries[key].expiresAt >= c.entries[key].expiresAt && c'.clock >= c.clock
  {
    if step.Act? && c.tasks[step.task].pc.Storing? {
      assert TaskOk(c, step.task);
    }
  }

  ghost function At(c: Cache, run: seq<Step>, i: nat): Cache
    requires i <= |run|
  {
    Exec(c, run[..i])
  }

  lemma {:induction false} LegalPrefix(c: Cache, run: seq<Step>, i: nat)
    requires Legal(c, run) && i <= |run|
    ensures Legal(c, run[..i])
    decreases |run|
  {
    if i < |run| {
      LegalPrefix(c, run[..|run| - 1], i);
      assert run[..|run| - 1][..i] == run[..i];
    } else {
      assert run[..i] == run;
    }
  }

  lemma StepAt(c: Cache, run: seq<Step>, i: nat)
    requires Legal(c, run) && i < |run|
    ensures Enabled(At(c, run, i), run[i]) && At(c, run, i + 1) == Apply(At(c, run, i), run[i])
  {
    LegalPrefix(c, run, i + 1);
    assert run[..i + 1][..i] == run[..i];
  }

  lemma {:induction false} ExpiryHolds(c: Cache, run: seq<Step>, i: nat, j: nat, key: string)
    requires Inv(c) && Legal(c, run) && i <= j <= |run| && key in At(c, run, i).entries
    ensures key in At(c, run, j).entries
    ensures At(c, run, j).entries[key].expiresAt >= At(c, run, i).entries[key].expiresAt
  {
    hide Inv, Enabled, Apply;
    if i < j {
      ExpiryHolds(c, run, i, j - 1, key);
      LegalPrefix(c, run, j - 1);
      RunKeepsInv(c, run[..j - 1]);
      StepAt(c, run, j - 1);
      ExpiryNeverDrops(At(c, run, j - 1), run[j - 1], key);
    }
  }

  /** Step `i` stores a fetched response for a key. */
  ghost predicate StoresAt(c: Cache, run: seq<Step>, i: nat, key: string)
    requires i < |run|
  {
    var at := At(c, run, i);
    run[i].Act? && run[i].task < |at.tasks| && at.tasks[run[i].task].pc.Storing? && at.tasks[run[i].task].key == key
  }

  /** Step `j` starts an origin fetch for a key. */
  ghost predicate FetchStartsAt(c: Cache, run: seq<Step>, j: nat, key: string)
    requires j < |run|
  {
    var at := At(c, run, j);
    run[j].Act? && run[j].task < |at.tasks| && at.tasks[run[j].task].pc.CountingOrigin? && at.tasks[run[j].task].key == key
  }

  /** After a fetch stores an entry, no origin fetch for its key starts before the
      stored lifetime has passed, whatever runs in between; an error is stored for
      at least the error lifetime. */
  lemma NoFetchBeforeExpiry(c: Cache, run: seq<Step>, i: nat, j: nat, key: string)
    requires Empty(c) && Legal(c, run) && i < j < |run|
    requires StoresAt(c, run, i, key) && FetchStartsAt(c, run, j, key)
    ensures var at, later := At(c, run, i), At(c, run, j).clock; var task := at.tasks[run[i].task];
            && later >= at.clock + task.ttl
            && (task.pc.response.status >= 400 ==> later >= at.clock + c.errorTtl)
  {
    EmptyHolds(c);
    StepAt(c, run, i);
    ErrorTtlFixed(c, run[..i]);
    ExpiryHolds(c, run, i + 1, j, key);
    LegalPrefix(c, run, j);
    RunKeepsInv(c, run[..j]);
    assert TaskOk(At(c, run, j), run[j].task);
  }

  /** Nothing expired is served: a call turns to a stored response only if that
      response was stored for its key and outlives the clock reading the call made. */
  lemma HitsAreFresh(c: Cache, t: nat, fetched: Response)
    requires Reachable(c) && t < |c.tasks| && !c.tasks[t].pc.CountingHit? && Next(c, t, fetched).CountingHit?
    ensures (c.tasks[t].pc.LookingUp? || c.tasks[t].pc.Rechecking?) && c.tasks[t].pc.now <= c.clock
    ensures var key := c.tasks[t].key;
            && key in c.entries && c.entries[key].expiresAt > c.tasks[t].pc.now
            && c.entries[key].response == Next(c, t, fetched).response
            && Produced(c, c.entries[key].storedBy, key, c.entries[key].response)
  {
    hide Shape, Reachable;
    ReachableHolds(c);
    ShapeAt(c, t);
  }

  /** Step `i` stored this entry for a key: what a call fetched, to expire its own
      lifetime after the clock then, an error no sooner than the error lifetime. */
  ghost predicate EntryOf(c: Cache, run: seq<Step>, i: nat, key: string, e: Entry)
  {
    && i < |run| && StoresAt(c, run, i, key)
    && var at := At(c, run, i); var call := at.tasks[run[i].task];
       && e.response == call.pc.response
       && e.expiresAt == at.clock + if e.response.status < 400 then call.ttl else Max(call.ttl, c.errorTtl)
  }

  lemma EntryOfLonger(c: Cache, run: seq<Step>, i: nat, key: string, e: Entry)
    requires run != [] && EntryOf(c, run[..|run| - 1], i, key, e)
    ensures EntryOf(c, run, i, key, e)
  {
    assert run[..|run| - 1][..i] == run[..i];
  }

  lemma {:induction false} EntriesWereStored(c: Cache, run: seq<Step>, key: string)
    requires Empty(c) && Legal(c, run) && key in Exec(c, run).entries
    ensures exists i :: EntryOf(c, run, i, key, Exec(c, run).entries[key])
  {
    var n := |run| - 1;
    var before := Exec(c, run[..n]);
    if run[n].Act? && before.tasks[run[n].task].pc.Storing? && before.tasks[run[n].task].key == key {
      ErrorTtlFixed(c, run[..n]);
      assert EntryOf(c, run, n, key, Exec(c, run).entries[key]);
    } else {
      EntriesWereStored(c, run[..n], key);
      var i :| EntryOf(c, run[..n], i, key, before.entries[key]);
      EntryOfLonger(c, run, i, key, before.entries[key]);
    }
  }

  /** Step `m` was call `t` reading the clock, and it read `now`. */
  ghost predicate ReadsClockAt(c: Cache, run: seq<Step>, m: nat, t: nat, now: nat)
  {
    && m < |run| && run[m].Act? && run[m].task == t && t < |At(c, run, m).tasks|
    && var pc := At(c, run, m).tasks[t].pc; (pc.ReadingClock? || pc.Holding?) && now == At(c, run, m).clock
  }

  lemma {:induction false} ClockWasRead(c: Cache, run: seq<Step>, t: nat)
    requires Empty(c) && Legal(c, run) && t < |Exec(c, run).tasks|
    requires Exec(c, run).tasks[t].pc.LookingUp? || Exec(c, run).tasks[t].pc.Rechecking?
    ensures exists m :: ReadsClockAt(c, run, m, t, Exec(c, run).tasks[t].pc.now)
  {
    var n, now := |run| - 1, Exec(c, run).tasks[t].pc.now;
    var before := Exec(c, run[..n]);
    if run[n].Act? && run[n].task == t {
      assert ReadsClockAt(c, run, n, t, now);
    } else {
      ClockWasRead(c, run[..n], t);
      var m: nat :| ReadsClockAt(c, run[..n], m, t, now);
      assert run[..n][..m] == run[..m];
      assert ReadsClockAt(c, run, m, t, now);
    }
  }

  /** Step `j` turns call `t` to a stored response. */
  ghost predicate HitsAt(c: Cache, run: seq<Step>, j: nat, t: nat)
  {
    && j < |run| && run[j].Act? && run[j].task == t && t < |At(c, run, j).tasks|
    && !At(c, run, j).tasks[t].pc.CountingHit? && t < |At(c, run, j + 1).tasks| && At(c, run, j + 1).tasks[t].pc.CountingHit?
  }

  /** Whatever is served from the cache is what some call for the key fetched and
      stored, and when the call served read its clock the lifetime of that had not
      passed: its own time to live, or for an error also the error lifetime. */
  lemma ServedWithinLifetime(c: Cache, run: seq<Step>, j: nat, t: nat) returns (i: nat, m: nat)
    requires Empty(c) && Legal(c, run) && HitsAt(c, run, j, t)
    ensures i < j && m < j && At(c, run, j).tasks[t].pc in {LookingUp(At(c, run, m).clock), Rechecking(At(c, run, m).clock)}
    ensures ReadsClockAt(c, run, m, t, At(c, run, m).clock) && StoresAt(c, run, i, At(c, run, j).tasks[t].key)
    ensures var at, now := At(c, run, i), At(c, run, m).clock; var call := at.tasks[run[i].task];
            && At(c, run, j + 1).tasks[t].pc.response == call.pc.response
            && now < at.clock + (if call.pc.response.status < 400 then call.ttl else Max(call.ttl, c.errorTtl))
  {
    hide Legal, Exec, EntryOf, ReadsClockAt;
    var at := At(c, run, j);
    LegalPrefix(c, run, j);
    StepAt(c, run, j);
    HitIsFresh(at, t, run[j].fetched);
    var e, now := at.entries[at.tasks[t].key], at.tasks[t].pc.now;
    EntriesWereStored(c, run[..j], at.tasks[t].key);
    i :| EntryOf(c, run[..j], i, at.tasks[t].key, e);
    ClockWasRead(c, run[..j], t);
    m :| ReadsClockAt(c, run[..j], m, t, now);
    EntryBefore(c, run, j, i, at.tasks[t].key, e);
    ClockBefore(c, run, j, m, t, now);
  }

  lemma HitIsFresh(c: Cache, t: nat, fetched: Response)
    requires t < |c.tasks| && !c.tasks[t].pc.CountingHit? && Next(c, t, fetched).CountingHit?
    ensures (c.tasks[t].pc.LookingUp? || c.tasks[t].pc.Rechecking?) && c.tasks[t].key in c.entries
    ensures var e := c.entries[c.tasks[t].key]; c.tasks[t].pc.now < e.expiresAt && Next(c, t, fetched).response == e.response
  {
  }

  lemma EntryBefore(c: Cache, run: seq<Step>, j: nat, i: nat, key: string, e: Entry)
    requires j <= |run| && EntryOf(c, run[..j], i, key, e)
    ensures i < j && StoresAt(c, run, i, key)
    ensures var at := At(c, run, i); var call := at.tasks[run[i].task];
            && e.response == call.pc.response
            && e.expiresAt == at.clock + (if e.response.status < 400 then call.ttl else Max(call.ttl, c.errorTtl))
  {
    assert run[..j][..i] == run[..i];
  }

  lemma ClockBefore(c: Cache, run: seq<Step>, j: nat, m: nat, t: nat, now: nat)
    requires j <= |run| && ReadsClockAt(c, run[..j], m, t, now)
    ensures m < j && ReadsClockAt(c, run, m, t, now) && now == At(c, run, m).clock
  {
    assert run[..j][..m] == run[..m];
  }

  lemma {:induction false} ErrorTtlFixed(c: Cache, run: seq<Step>)
    ensures Exec(c, run).errorTtl == c.errorTtl
  {
    if run != [] {
      ErrorTtlFixed(c, run[..|run| - 1]);
    }
  }

  // ---- Settling --------------------------------------------------------------------

  /** A call following one that was dropped before it unregistered. */
  predicate Wedged(c: Cache, t: nat)
    requires t < |c.tasks|
  {
    var pc := c.tasks[t].pc;
    pc.Waiting? && pc.leader < |c.tasks| && c.tasks[pc.leader].pc.Dropped?
  }

  predicate Unsettled(c: Cache, t: nat)
    requires t < |c.tasks|
  {
    !c.tasks[t].pc.Done? && !c.tasks[t].pc.Dropped?
  }

  /** Some call can move exactly when some unsettled call is not following a dropped
      leader: the two locks and the wait for a leader never close a cycle. */
  lemma NoDeadlock(c: Cache)
    requires Reachable(c)
    ensures (exists u :: 0 <= u < |c.tasks| && CanAdvance(c, u))
            <==> (exists t :: 0 <= t < |c.tasks| && Unsettled(c, t) && !Wedged(c, t))
  {
    ReachableHolds(c);
    if t :| 0 <= t < |c.tasks| && Unsettled(c, t) && !Wedged(c, t) {
      SomeoneMoves(c, t);
    }
    if u :| 0 <= u < |c.tasks| && CanAdvance(c, u) {
      if Wedged(c, u) {
        WedgedCannotAdvance(c, u);
      }
      assert Unsettled(c, u);
    }
  }

  lemma SomeoneMoves(c: Cache, t: nat)
    requires Inv(c) && t < |c.tasks| && Unsettled(c, t) && !Wedged(c, t)
    ensures exists u :: 0 <= u < |c.tasks| && CanAdvance(c, u)
  {
    assert TaskOk(c, t);
    if c.holder.Some? {
      assert CanAdvance(c, c.holder.value);
    } else if c.tasks[t].pc.Waiting? && t !in c.inbox {
      assert CanAdvance(c, c.tasks[t].pc.leader);
    } else {
      assert CanAdvance(c, t);
    }
  }

  lemma WedgedCannotAdvance(c: Cache, t: nat)
    requires Inv(c) && t < |c.tasks| && Wedged(c, t)
    ensures Registered(c, c.tasks[t].key, c.tasks[t].pc.leader) && !CanAdvance(c, t)
  {
    assert TaskOk(c, t);
  }

  /** Only a dropped call that is still registered wedges anything: dropped readers
      and followers harm no one. */
  lemma OnlyRegisteredLeadersWedge(c: Cache, t: nat)
    requires Reachable(c) && t < |c.tasks|
    requires forall key :: key in c.inflight && c.inflight[key] < |c.tasks| ==> !c.tasks[c.inflight[key]].pc.Dropped?
    ensures !Wedged(c, t)
  {
    ReachableHolds(c);
    if Wedged(c, t) {
      WedgedCannotAdvance(c, t);
    }
  }

  function Remaining(pc: Pc): nat
  {
    match pc
    case Starting => 13 case ReadingClock => 12 case LookingUp(_) => 11 case Joining => 10 case Electing => 9
    case Holding => 8 case Rechecking(_) => 7 case Inserting => 6 case CountingOrigin => 5 case Fetching => 4
    case Storing(_) => 3 case Removing(_) => 2 case CountingFollow(_) => 2 case Sending(_) => 1
    case Waiting(_) => 1 case CountingHit(_, _) => 1 case Done(_, _, _) => 0 case Dropped(_) => 0
  }

  function Work(tasks: seq<Task>): nat
  {
    if tasks == [] then 0 else Work(tasks[..|tasks| - 1]) + Remaining(tasks[|tasks| - 1].pc)
  }

  lemma {:induction false} WorkUpdate(tasks: seq<Task>, t: nat, task: Task)
    requires t < |tasks|
    ensures Work(tasks[t := task]) == Work(tasks) + Remaining(task.pc) - Remaining(tasks[t].pc)
  {
    var n := |tasks| - 1;
    if t == n {
      assert tasks[t := task][..n] == tasks[..n];
    } else {
      WorkUpdate(tasks[..n], t, task);
      assert tasks[t := task][..n] == tasks[..n][t := task];
    }
  }

  function Calls(run: seq<Step>): nat
  {
    if run == [] then 0 else Calls(run[..|run| - 1]) + if run[|run| - 1].Call? then 1 else 0
  }

  function Acts(run: seq<Step>): nat
  {
    if run == [] then 0 else Acts(run[..|run| - 1]) + if run[|run| - 1].Act? then 1 else 0
  }

  lemma ActWorks(c: Cache, t: nat, fetched: Response)
    requires t < |c.tasks| && CanAdvance(c, t)
    ensures Work(Advance(c, t, fetched).tasks) < Work(c.tasks)
  {
    var c' := Advance(c, t, fetched);
    assert c'.tasks == c.tasks[t := c'.tasks[t]];
    WorkUpdate(c.tasks, t, c'.tasks[t]);
  }

  /** Every call takes at most thirteen steps of its own, so together with the
      absence of deadlock every undropped call settles. */
  lemma {:induction false} CallsSettle(c: Cache, run: seq<Step>)
    requires Empty(c) && Legal(c, run)
    ensures Acts(run) + Work(Exec(c, run).tasks) <= 13 * Calls(run)
  {
    if run != [] {
      var init, last := run[..|run| - 1], run[|run| - 1];
      var before := Exec(c, init);
      CallsSettle(c, init);
      match last
      case Act(t, fetched) => ActWorks(before, t, fetched);
      case Call(endpoint, key, ttl) => assert (before.tasks + [Task(endpoint, key, ttl, Starting)])[..|before.tasks|] == before.tasks;
      case Drop(t) => WorkUpdate(before.tasks, t, before.tasks[t].(pc := Dropped(before.tasks[t].pc)));
      case Tick(_) =>
    }
  }

  // ---- Dropped leaders --------------------------------------------------------------

  lemma WedgeHolds(c: Cache, step: Step, key: string, l: nat)
    requires Inv(c) && Enabled(c, step) && Registered(c, key, l) && l < |c.tasks| && c.tasks[l].pc.Dropped?
    ensures var c' := Apply(c, step); Registered(c', key, l) && l < |c'.tasks| && c'.tasks[l].pc.Dropped?
  {
    if step.Act? {
      hide Shape, CountsOk;
      ShapeAt(c, step.task);
    }
  }

  /** A key whose registered leader was dropped stays registered to it for ever, so
      no call that follows it returns and no call fetches for the key again. */
  lemma {:induction false} DroppedLeaderWedgesKey(c: Cache, run: seq<Step>, key: string, l: nat)
    requires Reachable(c) && Legal(c, run) && Registered(c, key, l) && l < |c.tasks| && c.tasks[l].pc.Dropped?
    ensures var c' := Exec(c, run);
            && Registered(c', key, l) && l < |c'.tasks| && c'.tasks[l].pc.Dropped?
            && forall t :: 0 <= t < |c'.tasks| && c'.tasks[t].key == key ==>
                 && !Leads(c'.tasks[t].pc)
                 && (c'.tasks[t].pc == Waiting(l) ==> !CanAdvance(c', t))
  {
    hide Inv, Reachable;
    ReachableHolds(c);
    RunKeepsInv(c, run);
    if run != [] {
      var init := run[..|run| - 1];
      DroppedLeaderWedgesKey(c, init, key, l);
      RunKeepsInv(c, init);
      WedgeHolds(Exec(c, init), run[|run| - 1], key, l);
    }
    var c' := Exec(c, run);
    forall t | 0 <= t < |c'.tasks| && c'.tasks[t].key == key
      ensures !Leads(c'.tasks[t].pc)
      ensures c'.tasks[t].pc == Waiting(l) ==> !CanAdvance(c', t)
    {
      WedgedKey(c', t, l);
    }
  }

  lemma WedgedKey(c: Cache, t: nat, l: nat)
    requires Inv(c) && t < |c.tasks| && l < |c.tasks| && c.tasks[l].pc.Dropped?
    requires Registered(c, c.tasks[t].key, l)
    ensures !Leads(c.tasks[t].pc)
    ensures c.tasks[t].pc == Waiting(l) ==> !CanAdvance(c, t)
  {
    assert TaskOk(c, t);
  }

  /** What a step leaves a waiting follower of a dropped leader: waiting, or itself
      dropped. */
  lemma WedgeStays(c: Cache, step: Step, f: nat, l: nat)
    requires Inv(c) && Enabled(c, step) && f < |c.tasks| && l < |c.tasks| && c.tasks[l].pc.Dropped?
    requires c.tasks[f].pc == Waiting(l) || c.tasks[f].pc.Dropped?
    ensures var c' := Apply(c, step);
            && f < |c'.tasks| && l < |c'.tasks| && c'.tasks[l].pc.Dropped?
            && (c'.tasks[f].pc == Waiting(l) || c'.tasks[f].pc.Dropped?)
  {
    if c.tasks[f].pc.Waiting? {
      WedgedCannotAdvance(c, f);
    }
  }

  lemma {:induction false} WedgedForEver(c: Cache, run: seq<Step>, f: nat, l: nat)
    requires Inv(c) && Legal(c, run) && f < |c.tasks| && l < |c.tasks| && c.tasks[l].pc.Dropped?
    requires c.tasks[f].pc == Waiting(l)
    ensures var c' := Exec(c, run);
            && f < |c'.tasks| && l < |c'.tasks| && c'.tasks[l].pc.Dropped?
            && (c'.tasks[f].pc == Waiting(l) || c'.tasks[f].pc.Dropped?)
            && !CanAdvance(c', f)
  {
    hide Inv, Enabled, Apply;
    RunKeepsInv(c, run);
    if run != [] {
      var init := run[..|run| - 1];
      WedgedForEver(c, init, f, l);
      RunKeepsInv(c, init);
      WedgeStays(Exec(c, init), run[|run| - 1], f, l);
    }
    if Exec(c, run).tasks[f].pc == Waiting(l) {
      WedgedCannotAdvance(Exec(c, run), f);
    }
  }

  /** The next step towards a follower's answer: the holder of the lock moves, and
      with the lock free the leader does. Neither the follower nor a leader that has
      not been dropped is lost. */
  lemma Nearer(c: Cache, f: nat, l: nat, u: nat)
    requires Inv(c) && f < |c.tasks| && l < |c.tasks| && c.tasks[f].pc == Waiting(l) && f !in c.inbox
    requires !c.tasks[l].pc.Dropped?
    requires u == if c.holder.Some? then c.holder.value else l
    ensures u < |c.tasks| && CanAdvance(c, u)
    ensures var c' := Advance(c, u, COLLAPSE_FAILED);
            && |c'.tasks| == |c.tasks| && c'.tasks[f].pc == Waiting(l) && !c'.tasks[l].pc.Dropped?
  {
    assert TaskOk(c, f);
  }

  /** A follower of a call that has not been dropped can be served: some legal
      continuation delivers to it. */
  lemma {:induction false} FollowerIsServed(c: Cache, f: nat, l: nat) returns (run: seq<Step>)
    requires Inv(c) && f < |c.tasks| && l < |c.tasks| && c.tasks[f].pc == Waiting(l) && !c.tasks[l].pc.Dropped?
    ensures Legal(c, run) && f < |Exec(c, run).tasks| && CanAdvance(Exec(c, run), f)
    decreases Work(c.tasks)
  {
    hide Inv, Advance, Next;
    if f in c.inbox {
      return [];
    }
    var u := if c.holder.Some? then c.holder.value else l;
    Nearer(c, f, l, u);
    var step := Act(u, COLLAPSE_FAILED);
    StepKeepsInv(c, step);
    ActWorks(c, u, COLLAPSE_FAILED);
    var rest := FollowerIsServed(Apply(c, step), f, l);
    LegalOne(c, step);
    ExecAppend(c, [step], rest);
    run := [step] + rest;
  }

  lemma LegalOne(c: Cache, step: Step)
    requires Enabled(c, step)
    ensures Legal(c, [step]) && Exec(c, [step]) == Apply(c, step)
  {
    assert [step][..|[step]| - 1] == [];
    assert Legal(c, []) && Exec(c, []) == c;
  }

  ghost predicate Serves(c: Cache, run: seq<Step>, f: nat)
  {
    Legal(c, run) && f < |Exec(c, run).tasks| && CanAdvance(Exec(c, run), f)
  }

  /** A waiting follower can still return, in some continuation, exactly when the
      call it follows was not dropped. */
  lemma FollowerReturnsExactly(c: Cache, f: nat)
    requires Reachable(c) && f < |c.tasks| && c.tasks[f].pc.Waiting?
    ensures c.tasks[f].pc.leader < |c.tasks|
    ensures (exists run :: Serves(c, run, f)) <==> !c.tasks[c.tasks[f].pc.leader].pc.Dropped?
  {
    hide Shape, CountsOk, Legal, CanAdvance;
    ReachableHolds(c);
    ShapeAt(c, f);
    var l := c.tasks[f].pc.leader;
    if c.tasks[l].pc.Dropped? {
      forall run | Legal(c, run)
        ensures !Serves(c, run, f)
      {
        WedgedForEver(c, run, f, l);
      }
    } else {
      var run := FollowerIsServed(c, f, l);
      assert Serves(c, run, f);
    }
  }

  // The shortest way there: a call is dropped while it waits for the origin, and a
  // second call for its key follows it.

  lemma Extended(start: Cache, run: seq<Step>, step: Step)
    requires Legal(start, run) && Enabled(Exec(start, run), step)
    ensures Legal(start, run + [step]) && Exec(start, run + [step]) == Apply(Exec(start, run), step)
  {
    assert (run + [step])[..|run + [step]| - 1] == run;
  }

  /** The calls of a cache that has stored nothing, the last of them on its own line. */
  predicate Stands(c: Cache, before: seq<Task>, task: Task, holder: Option<nat>, inflight: map<string, nat>)
  {
    c.tasks == before + [task] && c.holder == holder && c.inflight == inflight && c.entries == map[]
  }

  /** The last call takes a step to `pc`. */
  lemma Moves(start: Cache, run: seq<Step>, before: seq<Task>, task: Task, holder: Option<nat>, inflight: map<string, nat>, pc: Pc)
    returns (longer: seq<Step>)
    requires Legal(start, run) && Stands(Exec(start, run), before, task, holder, inflight)
    requires CanAdvance(Exec(start, run), |before|) && Next(Exec(start, run), |before|, COLLAPSE_FAILED) == pc
    requires !task.pc.Storing? && !task.pc.Removing?
    ensures Legal(start, longer)
    ensures Stands(Exec(start, longer), before, task.(pc := pc), NextHolder(task.pc, pc, |before|, holder),
                   if task.pc.Inserting? then inflight[task.key := |before|] else inflight)
  {
    hide Legal, Exec, Next, CanAdvance;
    var c, step := Exec(start, run), Act(|before|, COLLAPSE_FAILED);
    Extended(start, run, step);
    longer := run + [step];
    assert Apply(c, step).tasks == before + [task.(pc := pc)];
  }

  lemma Looks(start: Cache, calls: seq<Step>, before: seq<Task>, key: string, inflight: map<string, nat>)
    returns (run: seq<Step>)
    requires Legal(start, calls)
    requires Stands(Exec(start, calls), before, Task("", key, 0, Starting), None, inflight)
    ensures Legal(start, run) && Stands(Exec(start, run), before, Task("", key, 0, Joining), None, inflight)
  {
    hide Legal, Exec;
    var task := Task("", key, 0, Starting);
    run := Moves(start, calls, before, task, None, inflight, ReadingClock);
    var now := Exec(start, run).clock;
    run := Moves(start, run, before, task.(pc := ReadingClock), None, inflight, LookingUp(now));
    run := Moves(start, run, before, task.(pc := LookingUp(now)), None, inflight, Joining);
  }

  lemma Elected(start: Cache, looked: seq<Step>, key: string) returns (run: seq<Step>)
    requires Legal(start, looked) && Stands(Exec(start, looked), [], Task("", key, 0, Joining), None, map[])
    ensures Legal(start, run) && Stands(Exec(start, run), [], Task("", key, 0, Inserting), Some(0), map[])
  {
    hide Legal, Exec;
    var task := Task("", key, 0, Joining);
    run := Moves(start, looked, [], task, None, map[], Electing);
    run := Moves(start, run, [], task.(pc := Electing), None, map[], Holding);
    var now := Exec(start, run).clock;
    run := Moves(start, run, [], task.(pc := Holding), Some(0), map[], Rechecking(now));
    run := Moves(start, run, [], task.(pc := Rechecking(now)), Some(0), map[], Inserting);
  }

  lemma Fetches(start: Cache, elected: seq<Step>, key: string) returns (run: seq<Step>)
    requires Legal(start, elected) && Stands(Exec(start, elected), [], Task("", key, 0, Inserting), Some(0), map[])
    ensures Legal(start, run) && Stands(Exec(start, run), [], Task("", key, 0, Fetching), None, map[key := 0])
  {
    hide Legal, Exec;
    var task := Task("", key, 0, Inserting);
    run := Moves(start, elected, [], task, Some(0), map[], CountingOrigin);
    run := Moves(start, run, [], task.(pc := CountingOrigin), None, map[key := 0], Fetching);
  }

  /** A key can be wedged: from an empty cache a call leads, is dropped at the
      origin, and a second call for the key is left waiting for it. */
  lemma WedgeIsReachable(start: Cache, key: string) returns (run: seq<Step>)
    requires Empty(start)
    ensures Legal(start, run)
    ensures var c := Exec(start, run);
            c.tasks == [Task("", key, 0, Dropped(Fetching)), Task("", key, 0, Waiting(0))] && Wedged(c, 1)
  {
    hide Legal, Exec;
    LegalOne(start, Call("", key, 0));
    run := Looks(start, [Call("", key, 0)], [], key, map[]);
    run := Elected(start, run, key);
    run := Fetches(start, run, key);
    Extended(start, run, Drop(0));
    run := run + [Drop(0)];
    Extended(start, run, Call("", key, 0));
    run := run + [Call("", key, 0)];
    var before := [Task("", key, 0, Dropped(Fetching))];
    run := Looks(start, run, before, key, map[key := 0]);
    run := Moves(start, run, before, Task("", key, 0, Joining), None, map[key := 0], CountingFollow(0));
    run := Moves(start, run, before, Task("", key, 0, CountingFollow(0)), None, map[key := 0], Waiting(0));
  }
}
