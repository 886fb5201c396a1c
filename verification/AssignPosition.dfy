/** One `assign_position` batch, call by call: classify the records, read the
    counters once, and take the live, the pre-queue or the rejecting path; the
    pre-queue path closes with a read that catches an open it raced. Everything
    here runs with other processes interleaving at every store call. */
module AssignPosition {
  import opened Common
  import opened Cohort
  import opened QueueProtocol
  import opened QueueGuarantees
  import opened QueueStore

  datatype JoinMessage = JoinMessage(requestId: RequestId, eventId: string, digest: Digest)

  /** A queue record; a body that does not parse as a join message is `None`. */
  datatype BatchRecord = BatchRecord(messageId: string, body: Option<JoinMessage>)

  datatype DropReason = BadShape | WrongEvent

  datatype RecordVerdict = Accept(msg: JoinMessage) | Reject(reason: DropReason)

  datatype Join = Join(messageId: string, msg: JoinMessage)

  datatype PreQueueWrite = PreQueueWrite(id: RequestId, shard: nat, localIndex: nat, digest: Digest)

  /** The path a batch takes, decided once. */
  datatype Route = Live | Registering | Refused

  /** Routed on what the open published, never on the phase alone. */
  function RouteOf(w: World): Route
  {
    if !w.seeded then Refused
    else if w.c.opening.Some? then Live
    else if w.c.phase == PreQueue then Registering
    else Refused
  }

  predicate IsHexDigit(c: char)
  {
    '0' <= c <= '9' || 'a' <= c <= 'f' || 'A' <= c <= 'F'
  }

  predicate IsUuidShape(s: string)
  {
    |s| == 36 &&
    forall i :: 0 <= i < |s| ==> if i == 8 || i == 13 || i == 18 || i == 23 then s[i] == '-' else IsHexDigit(s[i])
  }

  function ClassifyRecord(body: Option<JoinMessage>, eventId: string): RecordVerdict
  {
    match body
    case None => Reject(BadShape)
    case Some(msg) =>
      if msg.eventId != eventId then Reject(WrongEvent)
      else if IsUuidShape(msg.requestId) then Accept(msg)
      else Reject(BadShape)
  }

  /** The records of a batch that are accepted, in order. */
  function Accepted(records: seq<BatchRecord>, eventId: string): seq<Join>
  {
    if records == [] then []
    else
      var last := records[|records| - 1];
      Accepted(records[..|records| - 1], eventId) +
      match ClassifyRecord(last.body, eventId)
      case Accept(msg) => [Join(last.messageId, msg)]
      case Reject(_) => []
  }

  /** A run of hexadecimal digits. */
  predicate HexGroup(g: string, n: nat)
  {
    |g| == n && forall i :: 0 <= i < n ==> g[i] in "0123456789abcdefABCDEF"
  }

  /** Five groups of 8, 4, 4, 4 and 12 hexadecimal digits, with dashes between. */
  ghost predicate IsUuid(s: string)
  {
    exists a, b, c, d, e ::
      && HexGroup(a, 8) && HexGroup(b, 4) && HexGroup(c, 4) && HexGroup(d, 4) && HexGroup(e, 12)
      && s == a + "-" + b + "-" + c + "-" + d + "-" + e
  }

  lemma HexDigits(c: char)
    ensures IsHexDigit(c) <==> c in "0123456789abcdefABCDEF"
  {
    var digits := "0123456789abcdefABCDEF";
    if '0' <= c <= '9' {
      assert digits[c as int - '0' as int] == c;
    } else if 'a' <= c <= 'f' {
      assert digits[10 + c as int - 'a' as int] == c;
    } else if 'A' <= c <= 'F' {
      assert digits[16 + c as int - 'A' as int] == c;
    }
  }

  lemma HexSlice(s: string, lo: nat, hi: nat)
    requires lo <= hi <= |s| && forall i :: lo <= i < hi ==> IsHexDigit(s[i])
    ensures HexGroup(s[lo..hi], hi - lo)
  {
    forall i | 0 <= i < hi - lo
      ensures s[lo..hi][i] in "0123456789abcdefABCDEF"
    {
      HexDigits(s[lo + i]);
    }
  }

  lemma UuidShapeExactly(s: string)
    ensures IsUuidShape(s) <==> IsUuid(s)
  {
    hide IsHexDigit, HexGroup, IsUuidShape;
    if IsUuidShape(s) {
      ShapeIsGroups(s);
    }
    if a, b, c, d, e :| && HexGroup(a, 8) && HexGroup(b, 4) && HexGroup(c, 4) && HexGroup(d, 4) && HexGroup(e, 12)
                        && s == a + "-" + b + "-" + c + "-" + d + "-" + e {
      GroupsAreShaped(s, a, b, c, d, e);
    }
  }

  lemma ShapeIsGroups(s: string)
    requires IsUuidShape(s)
    ensures IsUuid(s)
  {
    hide IsHexDigit, HexGroup;
    HexSlice(s, 0, 8);
    HexSlice(s, 9, 13);
    HexSlice(s, 14, 18);
    HexSlice(s, 19, 23);
    HexSlice(s, 24, 36);
    Regrouped(s);
    FiveGroups(s[0..8], s[9..13], s[14..18], s[19..23], s[24..36]);
  }

  lemma FiveGroups(a: string, b: string, c: string, d: string, e: string)
    requires HexGroup(a, 8) && HexGroup(b, 4) && HexGroup(c, 4) && HexGroup(d, 4) && HexGroup(e, 12)
    ensures IsUuid(a + "-" + b + "-" + c + "-" + d + "-" + e)
  {
    hide HexGroup;
  }

  lemma GroupsAreShaped(s: string, a: string, b: string, c: string, d: string, e: string)
    requires HexGroup(a, 8) && HexGroup(b, 4) && HexGroup(c, 4) && HexGroup(d, 4) && HexGroup(e, 12)
    requires s == a + "-" + b + "-" + c + "-" + d + "-" + e
    ensures IsUuidShape(s)
  {
    hide IsHexDigit;
    forall i | 0 <= i < |s|
      ensures if i == 8 || i == 13 || i == 18 || i == 23 then s[i] == '-' else IsHexDigit(s[i])
    {
      HexDigits(s[i]);
    }
  }

  lemma Regrouped(s: string)
    requires |s| == 36 && s[8] == s[13] == s[18] == s[23] == '-'
    ensures s == s[0..8] + "-" + s[9..13] + "-" + s[14..18] + "-" + s[19..23] + "-" + s[24..36]
  {
  }

  /** The records taken are exactly those of this event under a well-formed id, in
      the order they came. */
  lemma AcceptedExactly(records: seq<BatchRecord>, more: seq<BatchRecord>, eventId: string)
    ensures Accepted(records + more, eventId) == Accepted(records, eventId) + Accepted(more, eventId)
    ensures forall r :: Accepted([r], eventId) ==
              if r.body.Some? && r.body.value.eventId == eventId && IsUuid(r.body.value.requestId)
              then [Join(r.messageId, r.body.value)] else []
  {
    hide IsUuid, IsUuidShape;
    AcceptedAppend(records, more, eventId);
    forall r
      ensures Accepted([r], eventId) ==
              if r.body.Some? && r.body.value.eventId == eventId && IsUuid(r.body.value.requestId)
              then [Join(r.messageId, r.body.value)] else []
    {
      AcceptedOne(r, eventId);
    }
  }

  lemma AcceptedOne(r: BatchRecord, eventId: string)
    ensures Accepted([r], eventId) ==
            if r.body.Some? && r.body.value.eventId == eventId && IsUuid(r.body.value.requestId)
            then [Join(r.messageId, r.body.value)] else []
  {
    hide IsUuid, IsUuidShape;
    assert [r][..0] == [] && Accepted([], eventId) == [];
    if r.body.Some? {
      UuidShapeExactly(r.body.value.requestId);
    }
  }

  lemma {:induction false} AcceptedAppend(records: seq<BatchRecord>, more: seq<BatchRecord>, eventId: string)
    ensures Accepted(records + more, eventId) == Accepted(records, eventId) + Accepted(more, eventId)
  {
    hide ClassifyRecord;
    if more == [] {
      assert records + more == records;
    } else {
      AcceptedAppend(records, more[..|more| - 1], eventId);
      assert (records + more)[..|records + more| - 1] == records + more[..|more| - 1];
    }
  }

  function Ids(joins: seq<Join>): seq<RequestId>
  {
    seq(|joins|, i requires 0 <= i < |joins| => joins[i].msg.requestId)
  }

  ghost predicate IsStraggler(c: Counters, wr: PreQueueWrite)
  {
    c.opening.Some? && Assign(c.opening.value.offsets, wr.shard, wr.localIndex) == LiveJoin
  }

  ghost predicate ReportsFailure(joins: seq<Join>, failures: seq<string>, id: RequestId)
  {
    exists j :: 0 <= j < |joins| && joins[j].msg.requestId == id && joins[j].messageId in failures
  }

  /** Every accepted join ends with its request id holding a place, or with a
      message for that id handed back for redelivery. */
  ghost predicate NoJoinLost(joins: seq<Join>, failures: seq<string>, w: World)
  {
    forall i :: 0 <= i < |joins| ==>
      Registered(w, joins[i].msg.requestId) || ReportsFailure(joins, failures, joins[i].msg.requestId)
  }

  ghost predicate OnlyAccepted(joins: seq<Join>, failures: seq<string>)
  {
    forall f :: f in failures ==> exists j :: 0 <= j < |joins| && joins[j].messageId == f
  }

  /** Every row this batch wrote that its closing read places past the opened
      count of its shard holds a live position. */
  ghost predicate StragglersPlaced(c: Counters, written: seq<PreQueueWrite>, w: World)
  {
    forall i :: 0 <= i < |written| && IsStraggler(c, written[i]) ==> written[i].id in w.positions
  }

  lemma RegisteredKept(w: World, w': World, id: RequestId)
    requires Grows(w, w') && Registered(w, id)
    ensures Registered(w', id)
  {
  }

  method ClassifyAll(records: seq<BatchRecord>, eventId: string) returns (valid: seq<Join>)
    ensures valid == Accepted(records, eventId)
  {
    valid := [];
    for i := 0 to |records|
      invariant valid == Accepted(records[..i], eventId)
    {
      assert records[..i + 1][..i] == records[..i];
      match ClassifyRecord(records[i].body, eventId)
      case Accept(msg) => valid := valid + [Join(records[i].messageId, msg)];
      case Reject(_) =>
    }
    assert records[..|records|] == records;
  }

  /** The message ids of a whole batch, handed back for redelivery. */
  method FailAll(joins: seq<Join>) returns (failures: seq<string>)
    ensures |failures| == |joins|
    ensures forall i :: 0 <= i < |joins| ==> failures[i] == joins[i].messageId
  {
    failures := [];
    for i := 0 to |joins|
      invariant |failures| == i
      invariant forall j :: 0 <= j < i ==> failures[j] == joins[j].messageId
    {
      failures := failures + [joins[i].messageId];
    }
  }

  function MessageIds(joins: seq<Join>): seq<string>
  {
    seq(|joins|, i requires 0 <= i < |joins| => joins[i].messageId)
  }

  /** The messages whose row was the matter of an unanswered call, one call a message
      from call `from` on. */
  ghost function Unwritten(joins: seq<Join>, fates: nat -> Fate, from: nat): seq<string>
  {
    if joins == [] then []
    else
      var n := |joins| - 1;
      Unwritten(joins[..n], fates, from) + if fates(from + n) == Answered then [] else [joins[n].messageId]
  }

  /** What a batch hands back when its calls start at `k`: everything if its block was
      not claimed, and otherwise only what it could not write. */
  ghost predicate HandsBack(joins: seq<Join>, failures: seq<string>, fates: nat -> Fate, k: nat, claimed: bool)
  {
    failures == if claimed then Unwritten(joins, fates, k + 1) else MessageIds(joins)
  }

  lemma UnwrittenMore(joins: seq<Join>, fates: nat -> Fate, from: nat, i: nat)
    requires i < |joins|
    ensures Unwritten(joins[..0], fates, from) == []
    ensures Unwritten(joins[..i + 1], fates, from) ==
            Unwritten(joins[..i], fates, from) + if fates(from + i) == Answered then [] else [joins[i].messageId]
  {
    assert joins[..i + 1][..i] == joins[..i];
  }

  lemma {:induction false} UnwrittenAre(joins: seq<Join>, fates: nat -> Fate, from: nat)
    ensures forall f :: f in Unwritten(joins, fates, from) <==>
              exists i :: 0 <= i < |joins| && fates(from + i) != Answered && joins[i].messageId == f
  {
    if joins != [] {
      var n := |joins| - 1;
      UnwrittenAre(joins[..n], fates, from);
      assert forall i :: 0 <= i < n ==> joins[..n][i] == joins[i];
    }
  }

  lemma SomeUnwritten(s: seq<string>)
    ensures s != [] ==> s[0] in s
  {
  }

  lemma UnwrittenFacts(joins: seq<Join>, fates: nat -> Fate, from: nat, end: nat)
    requires end == from + |joins|
    ensures OnlyAccepted(joins, Unwritten(joins, fates, from))
    ensures forall i :: 0 <= i < |joins| && fates(from + i) != Answered ==> joins[i].messageId in Unwritten(joins, fates, from)
    ensures AllAnswered(fates, from, end) ==> Unwritten(joins, fates, from) == []
  {
    hide Unwritten;
    UnwrittenAre(joins, fates, from);
    SomeUnwritten(Unwritten(joins, fates, from));
  }

  lemma FailedAllLosesNone(joins: seq<Join>, failures: seq<string>, w: World)
    requires |failures| == |joins|
    requires forall i :: 0 <= i < |joins| ==> failures[i] == joins[i].messageId
    ensures NoJoinLost(joins, failures, w) && OnlyAccepted(joins, failures)
  {
    forall i | 0 <= i < |joins|
      ensures ReportsFailure(joins, failures, joins[i].msg.requestId)
    {
      assert joins[i].messageId in failures;
    }
  }

  /** No step of the run by this process writes a pre-queue row. */
  ghost predicate NoRows(run: seq<Step>, me: nat)
  {
    forall i :: 0 <= i < |run| && run[i].actor == me ==> !run[i].act.PutPrequeue?
  }

  /** Who some joins are for: each request id with the digest of its own secret. */
  ghost function Owners(joins: seq<Join>): set<(RequestId, Digest)>
  {
    set j | j in joins :: (j.msg.requestId, j.msg.digest)
  }

  ghost function RowOwners(rows: seq<PreQueueWrite>): set<(RequestId, Digest)>
  {
    set wr | wr in rows :: (wr.id, wr.digest)
  }

  /** Every live row this process writes in the run is for one of `live`, under that
      visitor's own digest, and every pre-queue row for one of `rows`. */
  ghost predicate Puts(run: seq<Step>, me: nat, live: set<(RequestId, Digest)>, rows: set<(RequestId, Digest)>)
  {
    forall i :: 0 <= i < |run| && run[i].actor == me ==>
      && (run[i].act.PutPosition? ==> (run[i].act.id, run[i].act.digest) in live)
      && (run[i].act.PutPrequeue? ==> (run[i].act.id, run[i].act.digest) in rows)
  }

  lemma PutsNothing(run: seq<Step>, me: nat, live: set<(RequestId, Digest)>, rows: set<(RequestId, Digest)>)
    requires NotBy(run, me)
    ensures Puts(run, me, live, rows)
  {
  }

  lemma PutsNothingYet(trace: seq<Step>, me: nat, live: set<(RequestId, Digest)>, rows: set<(RequestId, Digest)>)
    ensures Puts(trace[|trace|..], me, live, rows)
  {
  }

  lemma OwnPuts(store: Store, act: Action, fate: Fate, live: set<(RequestId, Digest)>, rows: set<(RequestId, Digest)>)
    requires act.PutPosition? ==> (act.id, act.digest) in live
    requires act.PutPrequeue? ==> (act.id, act.digest) in rows
    ensures Puts(store.Own(act, fate), store.me, live, rows)
  {
  }

  lemma StillPuts(first: seq<Step>, was: seq<Step>, now: seq<Step>, others: seq<Step>, own: seq<Step>, me: nat,
                  live: set<(RequestId, Digest)>, rows: set<(RequestId, Digest)>)
    requires first <= was && now == was + others + own && NotBy(others, me)
    requires Puts(was[|first|..], me, live, rows) && Puts(own, me, live, rows)
    ensures first <= now && Puts(now[|first|..], me, live, rows)
  {
    assert now[|first|..] == was[|first|..] + (others + own);
  }

  /** One stretch of a trace after another, each within what the whole may write. */
  lemma PutsJoin(first: seq<Step>, mid: seq<Step>, last: seq<Step>, me: nat,
                 live: set<(RequestId, Digest)>, rows: set<(RequestId, Digest)>,
                 live': set<(RequestId, Digest)>, rows': set<(RequestId, Digest)>,
                 allLive: set<(RequestId, Digest)>, allRows: set<(RequestId, Digest)>)
    requires first <= mid <= last && Puts(mid[|first|..], me, live, rows) && Puts(last[|mid|..], me, live', rows')
    requires live <= allLive && live' <= allLive && rows <= allRows && rows' <= allRows
    ensures Puts(last[|first|..], me, allLive, allRows)
  {
    assert last[|first|..] == mid[|first|..] + last[|mid|..];
  }

  lemma PutsNoRows(run: seq<Step>, me: nat, live: set<(RequestId, Digest)>)
    requires Puts(run, me, live, {})
    ensures NoRows(run, me)
  {
  }

  ghost function LiveRow(me: nat, join: Join, position: nat): Step
  {
    Step(me, QueueProtocol.PutPosition(join.msg.requestId, position, join.msg.digest))
  }

  /** The messages got the places from `start` on in the order they came, one call
      each. */
  ghost predicate SentInOrder(trace: seq<Step>, log: seq<Call>, fates: nat -> Fate, me: nat, joins: seq<Join>, from: nat, start: nat)
  {
    forall i :: 0 <= i < |joins| ==> Sent(trace, log, fates, from + i, LiveRow(me, joins[i], start + i))
  }

  /** Call `k` claimed one block for the whole batch, and each call after it wrote one
      row, in order from the end of the line it found. Everything is handed back when
      the claim failed, by then or by the counter being too wide, and otherwise what
      could not be written. */
  ghost predicate PlacesBatch(store: Store, joins: seq<Join>, failures: seq<string>, k: nat)
    reads store
  {
    var claimed := store.fates(k) == Answered && |store.log| > k + 1;
    && Sent(store.trace, store.log, store.fates, k, Step(store.me, QueueProtocol.ClaimBlock(Ids(joins))))
    && HandsBack(joins, failures, store.fates, k, claimed)
    && |store.log| == k + 1 + (if claimed then |joins| else 0)
    && if claimed
       then SentInOrder(store.trace, store.log, store.fates, store.me, joins, k + 1, store.Saw(k).c.queueCounter + 1)
       else store.fates(k) != Answered || store.world.c.queueCounter > U64_MAX
  }

  lemma SentMore(trace: seq<Step>, log: seq<Call>, trace': seq<Step>, log': seq<Call>, fates: nat -> Fate, me: nat,
                 joins: seq<Join>, n: nat, from: nat, start: nat)
    requires n < |joins| && trace <= trace' && log <= log'
    requires SentInOrder(trace, log, fates, me, joins[..n], from, start)
    requires Sent(trace', log', fates, from + n, LiveRow(me, joins[n], start + n))
    ensures SentInOrder(trace', log', fates, me, joins[..n + 1], from, start)
  {
    hide LiveRow;
    var more := joins[..n + 1];
    forall i | 0 <= i < |more|
      ensures Sent(trace', log', fates, from + i, LiveRow(me, more[i], start + i))
    {
      if i < n {
        assert Sent(trace, log, fates, from + i, LiveRow(me, joins[..n][i], start + i));
      }
    }
  }

  /** Writes one live row, for one visitor under their own digest. */
  method WriteLiveRow(store: Store, id: RequestId, position: nat, digest: Digest) returns (failed: bool)
    requires store.Valid() && position in store.world.allot && store.world.allot[position] == id
    modifies store
    ensures store.Valid() && store.Since() && |store.log| == |old(store.log)| + 1
    ensures failed <==> store.fates(|old(store.log)|) != Answered
    ensures !failed ==> id in store.world.positions
    ensures old(store.trace) <= store.trace && Puts(store.trace[|old(store.trace)|..], store.me, {(id, digest)}, {})
    ensures Sent(store.trace, store.log, store.fates, |old(store.log)|, Step(store.me, QueueProtocol.PutPosition(id, position, digest)))
  {
    hide Inv, Grows, Exec, Legal, Store.Valid, Apply, Puts, NotBy, Seen;
    store.OthersOnly();
    ghost var was, steps, act := store.trace, store.others(|store.log|, store.world), QueueProtocol.PutPosition(id, position, digest);
    PutsNothingYet(was, store.me, {(id, digest)}, {});
    OwnPuts(store, act, store.fates(|store.log|), {(id, digest)}, {});
    var put := store.PutPosition(id, position, digest);
    StillPuts(was, was, store.trace, steps, store.Own(act, store.fates(|old(store.log)|)), store.me, {(id, digest)}, {});
    failed := put.Err?;
  }

  /** One live row per message, at the positions of their block in order. */
  method WriteLiveRows(store: Store, joins: seq<Join>, start: u64) returns (failures: seq<string>)
    requires store.Valid() && BlockHeld(store.world, start, Ids(joins)) && start + |joins| <= U64_MAX + 1
    modifies store
    ensures store.Valid() && store.Since() && |store.log| == |old(store.log)| + |joins|
    ensures failures == Unwritten(joins, store.fates, |old(store.log)|)
    ensures forall i :: 0 <= i < |joins| && store.fates(|old(store.log)| + i) == Answered ==>
              joins[i].msg.requestId in store.world.positions
    ensures Puts(store.trace[|old(store.trace)|..], store.me, Owners(joins), {})
    ensures SentInOrder(store.trace, store.log, store.fates, store.me, joins, |old(store.log)|, start)
  {
    hide Inv, Grows, Exec, Legal, Store.Valid, BlockHeld, Puts, Owners, Unwritten, Sent, SentInOrder;
    NoneSent(store, |store.log|, start);
    GrowsRefl(store.world);
    PutsNothingYet(store.trace, store.me, Owners(joins), {});
    failures := [];
    UnwrittenNone(store.fates, |store.log|);
    for offset := 0 to |joins|
      invariant store.Valid() && store.Since() && BlockHeld(store.world, start, Ids(joins))
      invariant |store.log| == |old(store.log)| + offset
      invariant failures == Unwritten(joins[..offset], store.fates, |old(store.log)|)
      invariant forall i :: 0 <= i < offset && store.fates(|old(store.log)| + i) == Answered ==>
                  joins[i].msg.requestId in store.world.positions
      invariant Puts(store.trace[|old(store.trace)|..], store.me, Owners(joins), {})
      invariant SentInOrder(store.trace, store.log, store.fates, store.me, joins[..offset], |old(store.log)|, start)
    {
      ghost var before, was, calls := store.world, store.trace, store.log;
      var position := SatAdd(start, offset);
      BlockAt(before, start, Ids(joins), offset);
      var failed := WriteLiveRow(store, joins[offset].msg.requestId, position, joins[offset].msg.digest);
      OwnerOf(joins, offset);
      PutsJoin(old(store.trace), was, store.trace, store.me, Owners(joins), {},
               {(joins[offset].msg.requestId, joins[offset].msg.digest)}, {}, Owners(joins), {});
      GrowsTrans(old(store.world), before, store.world);
      BlockKept(before, store.world, start, Ids(joins));
      ClaimsKept(before, store.world);
      UnwrittenMore(joins, store.fates, |old(store.log)|, offset);
      SentMore(was, calls, store.trace, store.log, store.fates, store.me, joins, offset, |old(store.log)|, start);
      if failed {
        failures := failures + [joins[offset].messageId];
      }
    }
    assert joins[..|joins|] == joins;
  }

  lemma NoneSent(store: Store, from: nat, start: nat)
    ensures SentInOrder(store.trace, store.log, store.fates, store.me, [], from, start)
  {
  }

  lemma UnwrittenNone(fates: nat -> Fate, from: nat)
    ensures Unwritten([], fates, from) == []
  {
  }

  /** One block of live positions for the whole batch, then one row each. Neither
      saturating operation ever saturates: the block end fits 64 bits and is at
      least the block size. */
  method ProcessLiveBatch(store: Store, valid: seq<Join>) returns (failures: seq<string>)
    requires store.Valid() && valid != [] && store.world.c.opening.Some?
    modifies store
    ensures store.Valid() && store.Since()
    ensures EachPlacedOrReturned(valid, failures, store.world)
    ensures OnlyAccepted(valid, failures)
    ensures Clean(store.fates, |old(store.log)|, |store.log|, store.world) ==> failures == []
    ensures PlacesBatch(store, valid, failures, |old(store.log)|)
    ensures Puts(store.trace[|old(store.trace)|..], store.me, Owners(valid), {})
  {
    hide Inv, Grows, Exec, Legal, Store.Valid, BlockHeld, Apply, Puts, Owners, NotBy, Unwritten, OnlyAccepted, Clean,
         AllAnswered, SentInOrder, Seen;
    var ids := Ids(valid);
    store.Stored();
    ghost var k := |store.log|;
    PutsNothingYet(store.trace, store.me, Owners(valid), {});
    store.OthersOnly();
    var claim := store.ClaimBlock(ids);
    ghost var claimedAt, claimed := store.world, store.trace;
    OwnPuts(store, QueueProtocol.ClaimBlock(ids), store.fates(|old(store.log)|), Owners(valid), {});
    StillPuts(old(store.trace), old(store.trace), store.trace, store.others(|old(store.log)|, old(store.world)),
              store.Own(QueueProtocol.ClaimBlock(ids), store.fates(|old(store.log)|)), store.me, Owners(valid), {});
    if claim.Err? {
      failures := FailAll(valid);
      FailedAllLosesNone(valid, failures, store.world);
      assert failures == MessageIds(valid);
      NotCleanQueue(store.fates, |old(store.log)|, |store.log|, store.world, |old(store.log)|);
      return failures;
    }
    var start := SatAdd(SatSub(claim.value, |ids|), 1);
    ghost var calls := store.log;
    failures := WriteLiveRows(store, valid, start);
    SeenStays(store.start, claimed, calls, store.trace, store.log, store.lag, k);
    GrowsTrans(old(store.world), claimedAt, store.world);
    PutsJoin(old(store.trace), claimed, store.trace, store.me, Owners(valid), {}, Owners(valid), {}, Owners(valid), {});
    UnwrittenFacts(valid, store.fates, |old(store.log)| + 1, |store.log|);
    CleanTail(store.fates, |old(store.log)|, |store.log|, store.world);
  }

  lemma OwnerOf(joins: seq<Join>, i: nat)
    requires i < |joins|
    ensures (joins[i].msg.requestId, joins[i].msg.digest) in Owners(joins)
  {
    assert joins[i] in joins;
  }

  lemma RowOwnerOf(rows: seq<PreQueueWrite>, i: nat)
    requires i < |rows|
    ensures (rows[i].id, rows[i].digest) in RowOwners(rows)
  {
    assert rows[i] in rows;
  }

  // ---- The pre-queue path -----------------------------------------------------

  ghost predicate DedupeOf(joins: seq<Join>, deduped: seq<Join>)
  {
    && Distinct(Ids(deduped))
    && (forall k :: 0 <= k < |deduped| ==> deduped[k] in joins)
    && (forall i :: 0 <= i < |joins| ==> joins[i].msg.requestId in Ids(deduped))
  }

  predicate Mentions(joins: seq<Join>, id: RequestId)
  {
    exists i :: 0 <= i < |joins| && joins[i].msg.requestId == id
  }

  /** The messages whose request id no earlier message has. */
  function Firsts(joins: seq<Join>): seq<Join>
  {
    if joins == [] then []
    else
      var last := joins[|joins| - 1];
      Firsts(joins[..|joins| - 1]) + if Mentions(joins[..|joins| - 1], last.msg.requestId) then [] else [last]
  }

  /** The first message of each request id in the batch, in order: one for every id
      of the batch, and no id twice. */
  method Dedupe(joins: seq<Join>) returns (deduped: seq<Join>)
    ensures deduped == Firsts(joins) && DedupeOf(joins, deduped) && Distinct(Ids(deduped))
  {
    hide Firsts;
    var seen: set<RequestId> := {};
    deduped := [];
    FirstsGrow(joins, 0);
    for i := 0 to |joins|
      invariant deduped == Firsts(joins[..i])
      invariant forall id :: id in seen <==> Mentions(joins[..i], id)
      invariant forall id :: id in seen <==> id in Ids(deduped)
      invariant Distinct(Ids(deduped))
      invariant forall k :: 0 <= k < |deduped| ==> deduped[k] in joins
    {
      var id := joins[i].msg.requestId;
      FirstsGrow(joins, i);
      MentionsGrow(joins, i);
      if id !in seen {
        seen := seen + {id};
        assert Ids(deduped + [joins[i]]) == Ids(deduped) + [id];
        deduped := deduped + [joins[i]];
      }
    }
    assert joins[..|joins|] == joins;
    forall i | 0 <= i < |joins|
      ensures joins[i].msg.requestId in Ids(deduped)
    {
      assert Mentions(joins, joins[i].msg.requestId);
    }
  }

  /** Exactly the messages before which no other has their id are kept. */
  lemma {:induction false} FirstsExactly(joins: seq<Join>, m: Join)
    ensures m in Firsts(joins) <==>
            exists i :: 0 <= i < |joins| && joins[i] == m && forall j :: 0 <= j < i ==> joins[j].msg.requestId != m.msg.requestId
  {
    if joins != [] {
      var init, n := joins[..|joins| - 1], |joins| - 1;
      FirstsExactly(init, m);
      assert forall i :: 0 <= i < n ==> init[i] == joins[i];
    }
  }

  lemma FirstsGrow(joins: seq<Join>, i: nat)
    requires i <= |joins|
    ensures Firsts(joins[..0]) == []
    ensures i < |joins| ==>
              Firsts(joins[..i + 1]) ==
              Firsts(joins[..i]) + if Mentions(joins[..i], joins[i].msg.requestId) then [] else [joins[i]]
  {
    if i < |joins| {
      assert joins[..i + 1][..i] == joins[..i];
    }
  }

  lemma MentionsGrow(joins: seq<Join>, i: nat)
    requires i < |joins|
    ensures forall id :: Mentions(joins[..i + 1], id) <==> Mentions(joins[..i], id) || id == joins[i].msg.requestId
  {
    forall id
      ensures Mentions(joins[..i + 1], id) <==> Mentions(joins[..i], id) || id == joins[i].msg.requestId
    {
      if Mentions(joins[..i], id) {
        var k :| 0 <= k < i && joins[..i][k].msg.requestId == id;
        assert joins[..i + 1][k].msg.requestId == id;
      }
      if id == joins[i].msg.requestId {
        assert joins[..i + 1][i].msg.requestId == id;
      }
    }
  }

  /** What is left of the joins without those already known, each once. */
  ghost predicate Left(joins: seq<Join>, known: set<RequestId>, group: seq<Join>)
  {
    && (forall k :: 0 <= k < |group| ==> group[k] in joins && group[k].msg.requestId !in known)
    && (forall i :: 0 <= i < |joins| ==> joins[i].msg.requestId in known || joins[i] in group)
    && Distinct(Ids(group))
  }

  method Unregistered(joins: seq<Join>, registered: set<RequestId>) returns (group: seq<Join>)
    requires Distinct(Ids(joins))
    ensures Left(joins, registered, group)
  {
    group := [];
    for i := 0 to |joins|
      invariant forall k :: 0 <= k < |group| ==> group[k] in joins[..i]
      invariant Left(joins[..i], registered, group)
    {
      if joins[i].msg.requestId !in registered {
        StillDistinct(joins, i, group);
        group := group + [joins[i]];
      }
    }
    assert joins[..|joins|] == joins;
  }

  lemma StillDistinct(joins: seq<Join>, i: nat, group: seq<Join>)
    requires Distinct(Ids(joins)) && i < |joins| && Distinct(Ids(group)) && forall k :: 0 <= k < |group| ==> group[k] in joins[..i]
    ensures Distinct(Ids(group + [joins[i]]))
  {
    forall k | 0 <= k < |group|
      ensures group[k].msg.requestId != joins[i].msg.requestId
    {
      var j :| 0 <= j < i && joins[j] == group[k];
      assert Ids(joins)[j] != Ids(joins)[i];
    }
    assert Ids(group + [joins[i]]) == Ids(group) + [joins[i].msg.requestId];
  }

  /** Each row listed as written is the row now stored for its id. */
  ghost predicate RowsWritten(w: World, written: seq<PreQueueWrite>)
  {
    forall k :: 0 <= k < |written| ==>
      written[k].id in w.prequeue &&
      w.prequeue[written[k].id] == PreQueueRow(written[k].shard, written[k].localIndex, written[k].digest)
  }

  lemma RowsKept(w: World, w': World, written: seq<PreQueueWrite>)
    requires Grows(w, w') && RowsWritten(w, written)
    ensures RowsWritten(w', written)
  {
    ClaimsKept(w, w');
  }

  // ---- The rows a batch wrote, read off the trace -----------------------------------

  /** Step `i` of a trace is this process writing a pre-queue row where there was none. */
  ghost predicate WroteRow(start: World, trace: seq<Step>, i: nat, me: nat)
  {
    && i < |trace| && trace[i].actor == me && trace[i].act.PutPrequeue?
    && trace[i].act.id !in At(start, trace, i).prequeue
  }

  function RowOf(act: Action): PreQueueWrite
    requires act.PutPrequeue?
  {
    PreQueueWrite(act.id, act.shard, act.localIndex, act.digest)
  }

  /** Every row this process wrote from `from` on is on the list. */
  ghost predicate RowsListed(start: World, trace: seq<Step>, from: nat, me: nat, written: seq<PreQueueWrite>)
  {
    forall i :: from <= i < |trace| && WroteRow(start, trace, i, me) ==> RowOf(trace[i].act) in written
  }

  /** Every row on the list is one this process wrote from `from` on. */
  ghost predicate RowsTaken(start: World, trace: seq<Step>, from: nat, me: nat, written: seq<PreQueueWrite>)
  {
    forall k :: 0 <= k < |written| ==> TakenAt(start, trace, from, me, written[k])
  }

  ghost predicate TakenAt(start: World, trace: seq<Step>, from: nat, me: nat, row: PreQueueWrite)
  {
    exists m :: from <= m < |trace| && WroteRow(start, trace, m, me) && RowOf(trace[m].act) == row
  }

  lemma TakenStays(start: World, trace: seq<Step>, trace': seq<Step>, from: nat, me: nat, written: seq<PreQueueWrite>)
    requires trace <= trace' && RowsTaken(start, trace, from, me, written)
    ensures RowsTaken(start, trace', from, me, written)
  {
    forall k | 0 <= k < |written|
      ensures TakenAt(start, trace', from, me, written[k])
    {
      assert TakenAt(start, trace, from, me, written[k]);
      var m: nat :| from <= m < |trace| && WroteRow(start, trace, m, me) && RowOf(trace[m].act) == written[k];
      AtStays(start, trace, trace', m);
      assert WroteRow(start, trace', m, me);
    }
  }

  lemma TakenNow(start: World, before: seq<Step>, own: Step, from: nat, me: nat)
    requires from <= |before| && own.actor == me && own.act.PutPrequeue? && own.act.id !in Exec(start, before).prequeue
    ensures TakenAt(start, before + [own], from, me, RowOf(own.act))
  {
    assert (before + [own])[..|before|] == before;
    assert WroteRow(start, before + [own], |before|, me);
  }

  lemma RowsListedMore(start: World, trace: seq<Step>, others: seq<Step>, own: seq<Step>, from: nat, me: nat,
                       written: seq<PreQueueWrite>, written': seq<PreQueueWrite>)
    requires RowsListed(start, trace, from, me, written) && from <= |trace|
    requires NotBy(others, me) && |own| <= 1 && written <= written'
    requires own != [] && own[0].act.PutPrequeue? && own[0].act.id !in Exec(start, trace + others).prequeue ==>
               RowOf(own[0].act) in written'
    ensures RowsListed(start, trace + (others + own), from, me, written')
  {
    hide Exec;
    var longer := trace + (others + own);
    forall i | from <= i < |longer|
      ensures WroteRow(start, longer, i, me) ==> RowOf(longer[i].act) in written'
    {
      if i < |trace| {
        AtStays(start, trace, longer, i);
        assert WroteRow(start, longer, i, me) ==> WroteRow(start, trace, i, me);
      } else if i < |trace| + |others| {
        assert longer[i] == others[i - |trace|] && others[i - |trace|].actor != me;
      } else {
        assert longer[..i] == trace + others;
      }
    }
  }

  lemma RowsListedQuiet(start: World, trace: seq<Step>, more: seq<Step>, from: nat, me: nat, written: seq<PreQueueWrite>)
    requires RowsListed(start, trace, from, me, written) && from <= |trace| && NoRows(more, me)
    ensures RowsListed(start, trace + more, from, me, written)
  {
    var longer := trace + more;
    forall i | from <= i < |longer|
      ensures WroteRow(start, longer, i, me) ==> RowOf(longer[i].act) in written
    {
      if i < |trace| {
        AtStays(start, trace, longer, i);
        assert WroteRow(start, longer, i, me) ==> WroteRow(start, trace, i, me);
      } else {
        assert longer[i] == more[i - |trace|];
      }
    }
  }

  /** Writes one row; a row written goes on the list. */
  method WriteRow(store: Store, join: Join, shard: nat, localIndex: nat, ghost from: nat, written: seq<PreQueueWrite>)
    returns (put: Result<WriteOutcome, StoreError>, listed: seq<PreQueueWrite>)
    requires store.Valid() && from <= |store.trace| && RowsWritten(store.world, written)
    requires (shard, localIndex) in store.world.slots && store.world.slots[(shard, localIndex)] == join.msg.requestId
    modifies store
    ensures store.Valid() && store.Since() && |store.log| == |old(store.log)| + 1
    ensures put.Err? <==> store.fates(|old(store.log)|) != Answered
    ensures put.Ok? ==> join.msg.requestId in store.world.prequeue
    ensures RowsWritten(store.world, listed)
    ensures old(store.trace) <= store.trace && Puts(store.trace[|old(store.trace)|..], store.me, {}, {(join.msg.requestId, join.msg.digest)})
    ensures RowsTaken(store.start, old(store.trace), from, store.me, written) ==>
              RowsTaken(store.start, store.trace, from, store.me, listed)
    ensures RowOwners(listed) <= RowOwners(written) + {(join.msg.requestId, join.msg.digest)}
    ensures put.Ok? && RowsListed(store.start, old(store.trace), from, store.me, written) ==>
              RowsListed(store.start, store.trace, from, store.me, listed)
  {
    hide Inv, Grows, Exec, Legal, Store.Valid, RowsListed, Seen, Puts, TakenAt;
    store.OthersOnly();
    ghost var was, steps, call := store.trace, store.others(|store.log|, store.world), |store.log|;
    ghost var own := Step(store.me, QueueProtocol.PutPrequeue(join.msg.requestId, shard, localIndex, join.msg.digest));
    PutsNothingYet(was, store.me, {}, {(join.msg.requestId, join.msg.digest)});
    put := store.PutPrequeue(join.msg.requestId, shard, localIndex, join.msg.digest);
    RowsKept(old(store.world), store.world, written);
    OwnPuts(store, own.act, store.fates(call), {}, {(join.msg.requestId, join.msg.digest)});
    StillPuts(was, was, store.trace, steps, store.Own(own.act, store.fates(call)), store.me, {}, {(join.msg.requestId, join.msg.digest)});
    if RowsTaken(store.start, was, from, store.me, written) {
      TakenStays(store.start, was, store.trace, from, store.me, written);
    }
    listed := written;
    if put == Ok(Written) {
      listed := written + [PreQueueWrite(join.msg.requestId, shard, localIndex, join.msg.digest)];
    }
    if put.Ok? {
      assert store.trace == was + (steps + [own]);
      assert store.trace == (was + steps) + [own];
      SeenAt(store.start, store.trace, store.log, call, was + steps);
      if put == Ok(Written) {
        TakenNow(store.start, was + steps, own, from, store.me);
      }
      if RowsListed(store.start, was, from, store.me, written) {
        RowsListedMore(store.start, was, steps, [own], from, store.me, written, listed);
      }
    }
  }

  /** One row per join, at the local indices of their block in order, keeping what was
      actually written. */
  method WriteRows(store: Store, shard: nat, group: seq<Join>, start: u64)
    returns (failures: seq<string>, written: seq<PreQueueWrite>)
    requires store.Valid() && SlotsHeld(store.world, shard, start, Ids(group)) && start + |group| <= U64_MAX
    modifies store
    ensures store.Valid() && store.Since() && |store.log| == |old(store.log)| + |group|
    ensures failures == Unwritten(group, store.fates, |old(store.log)|)
    ensures forall i :: 0 <= i < |group| && store.fates(|old(store.log)| + i) == Answered ==>
              group[i].msg.requestId in store.world.prequeue
    ensures RowsWritten(store.world, written) && RowsTaken(store.start, store.trace, |old(store.trace)|, store.me, written)
    ensures Puts(store.trace[|old(store.trace)|..], store.me, {}, Owners(group)) && RowOwners(written) <= Owners(group)
    ensures AllAnswered(store.fates, |old(store.log)|, |store.log|) ==>
              RowsListed(store.start, store.trace, |old(store.trace)|, store.me, written)
  {
    hide Inv, Grows, Exec, Legal, Store.Valid, SlotsHeld, RowsListed, AllAnswered, RowsWritten, RowsTaken, Puts, Owners,
         RowOwners, Unwritten;
    written, failures := [], [];
    GrowsRefl(store.world);
    NothingListed(store.start, store.trace, store.me);
    NoneTaken(store.start, store.trace, store.me);
    PutsNothingYet(store.trace, store.me, {}, Owners(group));
    NoneWrittenYet(store.world);
    UnwrittenNone(store.fates, |store.log|);
    for offset := 0 to |group|
      invariant store.Valid() && store.Since() && SlotsHeld(store.world, shard, start, Ids(group))
      invariant |store.log| == |old(store.log)| + offset
      invariant failures == Unwritten(group[..offset], store.fates, |old(store.log)|)
      invariant forall i :: 0 <= i < offset && store.fates(|old(store.log)| + i) == Answered ==>
                  group[i].msg.requestId in store.world.prequeue
      invariant RowsWritten(store.world, written) && RowsTaken(store.start, store.trace, |old(store.trace)|, store.me, written)
      invariant Puts(store.trace[|old(store.trace)|..], store.me, {}, Owners(group)) && RowOwners(written) <= Owners(group)
      invariant AllAnswered(store.fates, |old(store.log)|, |store.log|) ==>
                  RowsListed(store.start, store.trace, |old(store.trace)|, store.me, written)
    {
      ghost var before, was, call := store.world, store.trace, |store.log|;
      var localIndex := SatAdd(start, offset);
      SlotAt(before, shard, start, Ids(group), offset);
      var put;
      put, written := WriteRow(store, group[offset], shard, localIndex, |old(store.trace)|, written);
      OwnerOf(group, offset);
      PutsJoin(old(store.trace), was, store.trace, store.me, {}, Owners(group),
               {}, {(group[offset].msg.requestId, group[offset].msg.digest)}, {}, Owners(group));
      GrowsTrans(old(store.world), before, store.world);
      SlotsKept(before, store.world, shard, start, Ids(group));
      ClaimsKept(before, store.world);
      AnsweredSooner(store.fates, |old(store.log)|, call, |store.log|);
      UnwrittenMore(group, store.fates, |old(store.log)|, offset);
      if put.Err? {
        Unanswered(store.fates, |old(store.log)|, call, |store.log|);
        failures := failures + [group[offset].messageId];
      }
    }
    assert group[..|group|] == group;
  }

  lemma NoneTaken(start: World, trace: seq<Step>, me: nat)
    ensures RowsTaken(start, trace, |trace|, me, [])
  {
  }

  predicate TooWide(w: World, shard: nat) { shard < |w.shards| && w.shards[shard] > U64_MAX }

  /** Call `k` claimed one block for the whole group, and each call after it wrote one
      row. All of the group is handed back when the claim failed, by then or by its
      answer being too wide, and otherwise what could not be written. An empty group
      makes no call. */
  ghost predicate RegistersGroup(trace: seq<Step>, log: seq<Call>, fates: nat -> Fate, me: nat, wide: bool, shard: nat,
                                 group: seq<Join>, failures: seq<string>, k: nat)
  {
    if group == [] then failures == [] && |log| == k
    else
      var claimed := fates(k) == Answered && |log| > k + 1;
      && Sent(trace, log, fates, k, Step(me, ClaimPrequeue(shard, Ids(group))))
      && HandsBack(group, failures, fates, k, claimed)
      && if claimed then k + |group| < |log| else |log| == k + 1 && (fates(k) != Answered || wide)
  }

  lemma GroupStays(trace: seq<Step>, log: seq<Call>, trace': seq<Step>, log': seq<Call>, fates: nat -> Fate, me: nat,
                   wide: bool, wide': bool, shard: nat, group: seq<Join>, failures: seq<string>, k: nat)
    requires trace <= trace' && log <= log' && group != [] && fates(k) == Answered && |log| > k + 1
    requires RegistersGroup(trace, log, fates, me, wide, shard, group, failures, k)
    ensures RegistersGroup(trace', log', fates, me, wide', shard, group, failures, k)
  {
    hide HandsBack;
  }

  /** Claims one block of local indices and writes one row per join. */
  method RegisterGroup(store: Store, shard: nat, group: seq<Join>)
    returns (failures: seq<string>, written: seq<PreQueueWrite>)
    requires store.Valid() && group != [] && shard < SHARDS
    modifies store
    ensures store.Valid() && store.Since()
    ensures forall i :: 0 <= i < |group| ==>
              group[i].msg.requestId in store.world.prequeue || group[i].messageId in failures
    ensures OnlyAccepted(group, failures)
    ensures var k := |old(store.log)|; var claimed := store.fates(k) == Answered && |store.log| > k + 1;
            && RegistersGroup(store.trace, store.log, store.fates, store.me, TooWide(store.world, shard), shard, group, failures, k)
            && |store.log| == k + 1 + (if claimed then |group| else 0) && (!claimed ==> written == [])
    ensures RowsWritten(store.world, written) && RowsTaken(store.start, store.trace, |old(store.trace)|, store.me, written)
    ensures Puts(store.trace[|old(store.trace)|..], store.me, {}, Owners(group)) && RowOwners(written) <= Owners(group)
    ensures Clean(store.fates, |old(store.log)|, |store.log|, store.world) ==> failures == []
    ensures AllAnswered(store.fates, |old(store.log)|, |store.log|) ==>
              RowsListed(store.start, store.trace, |old(store.trace)|, store.me, written)
  {
    hide Inv, Grows, Exec, Legal, Store.Valid, SlotsHeld, RowsListed, AllAnswered, RowsWritten, RowsTaken, NotBy,
         Extends, Puts, Owners, RowOwners, Unwritten, OnlyAccepted, Clean;
    var ids := Ids(group);
    ghost var k, first := |store.log|, store.trace;
    written, failures := [], [];
    NothingListed(store.start, store.trace, store.me);
    PutsNothingYet(store.trace, store.me, {}, Owners(group));
    store.OthersOnly();
    var claim := store.ClaimPrequeueBlock(shard, ids);
    ghost var claimedAt, claimed := store.world, store.trace;
    NoneWrittenYet(store.world);
    NoneTaken(store.start, first, store.me);
    TakenStays(store.start, first, claimed, |first|, store.me, []);
    OwnPuts(store, ClaimPrequeue(shard, ids), store.fates(k), {}, Owners(group));
    ghost var own := store.Own(ClaimPrequeue(shard, ids), store.fates(k));
    StillPuts(first, first, claimed, store.others(k, old(store.world)), own, store.me, {}, Owners(group));
    RowsListedMore(store.start, first, store.others(k, old(store.world)), own, |first|, store.me, [], []);
    assert claimed == first + (store.others(k, old(store.world)) + own);
    if claim.Err? {
      NotClean(store.fates, k, |store.log|, store.world, k, shard);
      failures := FailAll(group);
      assert failures == MessageIds(group);
      FailedAllLosesNone(group, failures, store.world);
      return;
    }
    failures, written := WriteRows(store, shard, group, claim.value);
    GrowsTrans(old(store.world), claimedAt, store.world);
    PutsJoin(first, claimed, store.trace, store.me, {}, Owners(group), {}, Owners(group), {}, Owners(group));
    TakenSooner(store.start, store.trace, |first|, |claimed|, store.me, written);
    UnwrittenFacts(group, store.fates, k + 1, |store.log|);
    CleanTail(store.fates, k, |store.log|, store.world);
    AnsweredLater(store.fates, k, |store.log|);
    if AllAnswered(store.fates, k + 1, |store.log|) {
      ListedFromSooner(store.start, first, claimed, store.trace, store.me, written);
    }
  }

  lemma TakenSooner(start: World, trace: seq<Step>, from: nat, later: nat, me: nat, written: seq<PreQueueWrite>)
    requires from <= later && RowsTaken(start, trace, later, me, written)
    ensures RowsTaken(start, trace, from, me, written)
  {
    forall k | 0 <= k < |written|
      ensures TakenAt(start, trace, from, me, written[k])
    {
      assert TakenAt(start, trace, later, me, written[k]);
    }
  }

  lemma AnsweredLater(fates: nat -> Fate, from: nat, to: nat)
    ensures AllAnswered(fates, from, to) ==> AllAnswered(fates, from + 1, to)
  {
  }

  lemma CleanTail(fates: nat -> Fate, from: nat, to: nat, w: World)
    ensures Clean(fates, from, to, w) ==> AllAnswered(fates, from + 1, to)
  {
  }

  lemma NoneWrittenYet(w: World)
    ensures RowsWritten(w, []) && RowOwners([]) == {}
  {
  }

  lemma NothingListed(start: World, trace: seq<Step>, me: nat)
    ensures RowsListed(start, trace, |trace|, me, [])
  {
  }

  lemma NotClean(fates: nat -> Fate, from: nat, to: nat, w: World, k: nat, shard: nat)
    requires from <= k < to && shard < |w.shards| && (fates(k) != Answered || w.shards[shard] > U64_MAX)
    ensures !Clean(fates, from, to, w)
  {
  }

  lemma Unanswered(fates: nat -> Fate, from: nat, k: nat, to: nat)
    requires from <= k < to && fates(k) != Answered
    ensures !AllAnswered(fates, from, to)
  {
  }

  lemma AnsweredSooner(fates: nat -> Fate, from: nat, mid: nat, to: nat)
    requires mid <= to
    ensures AllAnswered(fates, from, to) ==> AllAnswered(fates, from, mid)
  {
  }

  /** The rows the opened counters place past their shard's count, in order. */
  method Stragglers(c: Counters, written: seq<PreQueueWrite>) returns (late: seq<PreQueueWrite>)
    requires c.opening.Some?
    ensures forall i :: 0 <= i < |written| && IsStraggler(c, written[i]) ==> written[i] in late
    ensures forall k :: 0 <= k < |late| ==> late[k] in written && IsStraggler(c, late[k])
    ensures LateOnes(c, written, late)
  {
    hide Assign;
    late := [];
    for i := 0 to |written|
      invariant LateOnes(c, written[..i], late)
    {
      LateOrNot(c, written, i, late);
      if Assign(c.opening.value.offsets, written[i].shard, written[i].localIndex) == LiveJoin {
        late := late + [written[i]];
      }
    }
    assert written[..|written|] == written;
    AllLate(c, written, late);
  }

  /** The late ones of some rows, each as often as it is there. */
  ghost predicate LateOnes(c: Counters, written: seq<PreQueueWrite>, late: seq<PreQueueWrite>)
  {
    forall wr :: multiset(late)[wr] == if IsStraggler(c, wr) then multiset(written)[wr] else 0
  }

  lemma LateOrNot(c: Counters, written: seq<PreQueueWrite>, i: nat, late: seq<PreQueueWrite>)
    requires i < |written| && LateOnes(c, written[..i], late)
    ensures LateOnes(c, written[..i + 1], if IsStraggler(c, written[i]) then late + [written[i]] else late)
  {
    hide IsStraggler;
    assert written[..i + 1] == written[..i] + [written[i]];
  }

  lemma AllLate(c: Counters, written: seq<PreQueueWrite>, late: seq<PreQueueWrite>)
    requires LateOnes(c, written, late)
    ensures forall i :: 0 <= i < |written| && IsStraggler(c, written[i]) ==> written[i] in late
    ensures forall k :: 0 <= k < |late| ==> late[k] in written && IsStraggler(c, late[k])
  {
    hide IsStraggler;
    forall wr
      ensures wr in written && IsStraggler(c, wr) <==> wr in late
    {
      assert wr in multiset(written) <==> wr in written;
      assert wr in multiset(late) <==> wr in late;
    }
  }

  function RowIds(rows: seq<PreQueueWrite>): seq<RequestId>
  {
    seq(|rows|, i requires 0 <= i < |rows| => rows[i].id)
  }

  /** One live position per straggler. Failures are swallowed: a row already
      written must never be redelivered. */
  method PlaceStragglers(store: Store, late: seq<PreQueueWrite>)
    requires store.Valid() && late != [] && store.world.c.opening.Some?
    modifies store
    ensures store.Valid() && store.Since()
    ensures Sent(store.trace, store.log, store.fates, |old(store.log)|,
                 Step(store.me, QueueProtocol.ClaimBlock(RowIds(late))))
    ensures Clean(store.fates, |old(store.log)|, |store.log|, store.world) ==>
              forall k :: 0 <= k < |late| ==> late[k].id in store.world.positions
    ensures Puts(store.trace[|old(store.trace)|..], store.me, RowOwners(late), {})
  {
    hide Inv, Grows, Exec, Legal, Store.Valid, BlockHeld, Apply, Puts, RowOwners, NotBy, Clean, AllAnswered, Seen;
    var ids := RowIds(late);
    ghost var k, first := |store.log|, store.trace;
    PutsNothingYet(first, store.me, RowOwners(late), {});
    store.OthersOnly();
    var claim := store.ClaimBlock(ids);
    ghost var atClaim, claimed, calls := store.world, store.trace, store.log;
    OwnPuts(store, QueueProtocol.ClaimBlock(ids), store.fates(k), RowOwners(late), {});
    StillPuts(first, first, claimed, store.others(k, old(store.world)),
              store.Own(QueueProtocol.ClaimBlock(ids), store.fates(k)), store.me, RowOwners(late), {});
    if claim.Err? {
      NotCleanQueue(store.fates, k, |store.log|, store.world, k);
      return;
    }
    PlaceRows(store, late, SatAdd(SatSub(claim.value, |late|), 1));
    SentStays(claimed, calls, store.trace, store.log, store.fates, k, Step(store.me, QueueProtocol.ClaimBlock(ids)));
    PutsJoin(first, claimed, store.trace, store.me, RowOwners(late), {}, RowOwners(late), {}, RowOwners(late), {});
    GrowsTrans(old(store.world), atClaim, store.world);
    CleanTail(store.fates, k, |store.log|, store.world);
    EachPlaced(late, store.fates, k + 1, store.world);
  }

  lemma EachPlaced(late: seq<PreQueueWrite>, fates: nat -> Fate, from: nat, w: World)
    requires forall i :: 0 <= i < |late| && fates(from + i) == Answered ==> late[i].id in w.positions
    ensures AllAnswered(fates, from, from + |late|) ==> forall i :: 0 <= i < |late| ==> late[i].id in w.positions
  {
  }

  /** One live row per straggler, at the positions of their block in order. */
  method PlaceRows(store: Store, late: seq<PreQueueWrite>, start: u64)
    requires store.Valid() && BlockHeld(store.world, start, RowIds(late)) && start + |late| <= U64_MAX + 1
    modifies store
    ensures store.Valid() && store.Since() && |store.log| == |old(store.log)| + |late|
    ensures forall i :: 0 <= i < |late| && store.fates(|old(store.log)| + i) == Answered ==> late[i].id in store.world.positions
    ensures Puts(store.trace[|old(store.trace)|..], store.me, RowOwners(late), {})
  {
    hide Inv, Grows, Exec, Legal, Store.Valid, BlockHeld, Puts, RowOwners, Sent;
    GrowsRefl(store.world);
    PutsNothingYet(store.trace, store.me, RowOwners(late), {});
    for offset := 0 to |late|
      invariant store.Valid() && store.Since() && BlockHeld(store.world, start, RowIds(late))
      invariant |store.log| == |old(store.log)| + offset
      invariant forall i :: 0 <= i < offset && store.fates(|old(store.log)| + i) == Answered ==> late[i].id in store.world.positions
      invariant Puts(store.trace[|old(store.trace)|..], store.me, RowOwners(late), {})
    {
      ghost var before, was := store.world, store.trace;
      BlockAt(before, start, RowIds(late), offset);
      var failed := WriteLiveRow(store, late[offset].id, SatAdd(start, offset), late[offset].digest);
      RowOwnerOf(late, offset);
      PutsJoin(old(store.trace), was, store.trace, store.me, RowOwners(late), {}, {(late[offset].id, late[offset].digest)}, {},
               RowOwners(late), {});
      GrowsTrans(old(store.world), before, store.world);
      BlockKept(before, store.world, start, RowIds(late));
      ClaimsKept(before, store.world);
    }
  }

  lemma NotCleanQueue(fates: nat -> Fate, from: nat, to: nat, w: World, k: nat)
    requires from <= k < to && (fates(k) != Answered || w.c.queueCounter > U64_MAX)
    ensures !Clean(fates, from, to, w)
  {
  }

  /** The closing read, and a live position for every row it finds past its
      shard's count. The read is the first call made, after every step before it;
      if it sees the open and nothing fails, every straggler listed is placed. */
  method FixupStragglers(store: Store, written: seq<PreQueueWrite>)
    requires store.Valid()
    modifies store
    ensures store.Valid() && store.Since()
    ensures var k := |old(store.log)|;
            k < |store.log| && store.log[k].op == GetCounters && |old(store.trace)| <= store.log[k].at <= |store.trace|
    ensures Clean(store.fates, |old(store.log)|, |store.log|, store.world) && store.Saw(|old(store.log)|).c.opening.Some? ==>
              StragglersPlaced(store.world.c, written, store.world)
    ensures Puts(store.trace[|old(store.trace)|..], store.me, LateOwners(store.world.c, written), {})
  {
    hide Inv, Grows, Exec, Legal, Store.Valid, Seen, AllAnswered, Puts, RowOwners, LateOwners, Assign;
    store.OthersOnly();
    var read := store.LoadCounters();
    ghost var atRead, prefix, calls := store.world, store.trace, store.log;
    assert prefix[|old(store.trace)|..] == store.others(|old(store.log)|, old(store.world));
    PutsNothing(prefix[|old(store.trace)|..], store.me, LateOwners(atRead.c, written), {});
    if read.Err? {
      Unanswered(store.fates, |old(store.log)|, |old(store.log)|, |store.log|);
      return;
    }
    store.Stored();
    if read.value.None? || read.value.value.opening.None? {
      if atRead.c.opening.Some? {
        OpenedIsSeeded(atRead);
      }
      return;
    }
    var counters := read.value.value;
    var late := Stragglers(counters, written);
    assert forall wr :: IsStraggler(counters, wr) <==> IsStraggler(atRead.c, wr);
    if late != [] {
      PlaceStragglers(store, late);
      GrowsTrans(old(store.world), atRead, store.world);
      ClaimsKept(atRead, store.world);
      SeenStays(store.start, prefix, calls, store.trace, store.log, store.lag, |old(store.log)|);
      LateOnly(counters, late, written);
      SameLate(counters, store.world.c, written);
      SameLate(atRead.c, store.world.c, written);
      PutsJoin(old(store.trace), prefix, store.trace, store.me, LateOwners(store.world.c, written), {}, RowOwners(late), {},
               LateOwners(store.world.c, written), {});
      if Clean(store.fates, |old(store.log)|, |store.log|, store.world) {
        CleanParts(store.fates, |old(store.log)|, |calls|, |store.log|, atRead, store.world);
      }
    }
  }

  /** Whom a batch may still place: those of its rows that the open did not count. */
  ghost function LateOwners(c: Counters, written: seq<PreQueueWrite>): set<(RequestId, Digest)>
  {
    set wr | wr in written && IsStraggler(c, wr) :: (wr.id, wr.digest)
  }

  lemma LateOnly(c: Counters, late: seq<PreQueueWrite>, written: seq<PreQueueWrite>)
    requires forall k :: 0 <= k < |late| ==> late[k] in written && IsStraggler(c, late[k])
    ensures RowOwners(late) <= LateOwners(c, written)
  {
    hide IsStraggler;
  }

  lemma SameLate(c: Counters, c': Counters, written: seq<PreQueueWrite>)
    requires c.opening == c'.opening
    ensures LateOwners(c, written) == LateOwners(c', written)
  {
    assert forall wr :: IsStraggler(c, wr) <==> IsStraggler(c', wr);
  }

  lemma FewerJoins(group: seq<Join>, joins: seq<Join>)
    requires forall k :: 0 <= k < |group| ==> group[k] in joins
    ensures Owners(group) <= Owners(joins)
  {
  }

  lemma NotByNoRows(run: seq<Step>, me: nat)
    requires NotBy(run, me)
    ensures NoRows(run, me)
  {
  }

  // ---- What a closing read settles ------------------------------------------------

  /** A row the open did not count, against call `k`: if that call saw the event
      open, the row's id holds a live position, and otherwise the open committed
      after it. */
  ghost predicate StragglerSettled(store: Store, row: PreQueueWrite, k: nat)
    requires k < |store.log|
    reads store
  {
    IsStraggler(store.world.c, row) ==>
      if store.Saw(k).c.opening.Some? then row.id in store.world.positions
      else exists j :: store.log[k].at <= j < |store.trace| && CommitsOpenAt(store.start, store.trace, j)
  }

  /** Call `k` is a read of the counters after step `i`, and settles the row written there. */
  ghost predicate ClosesOn(store: Store, i: nat, k: nat)
    reads store
  {
    && i < |store.trace| && store.trace[i].act.PutPrequeue?
    && k < |store.log| && store.log[k].op == GetCounters && i < store.log[k].at
    && StragglerSettled(store, RowOf(store.trace[i].act), k)
  }

  /** Every live row this process wrote from `from` on is for a pre-queue row of its own
      that the open did not count, written earlier, under the same digest. */
  ghost predicate OnlyLatePlaced(store: Store, from: nat)
    reads store
  {
    forall i :: from <= i < |store.trace| && store.trace[i].actor == store.me && store.trace[i].act.PutPosition? ==>
      PlacedFor(store, from, i)
  }

  ghost predicate PlacedFor(store: Store, from: nat, i: nat)
    requires i < |store.trace| && store.trace[i].act.PutPosition?
    reads store
  {
    exists m :: from <= m < i && WroteRow(store.start, store.trace, m, store.me) &&
      var row := RowOf(store.trace[m].act);
      row.id == store.trace[i].act.id && row.digest == store.trace[i].act.digest && IsStraggler(store.world.c, row)
  }

  lemma OnlyLateAre(store: Store, first: seq<Step>, rows: seq<Step>, written: seq<PreQueueWrite>, owners: set<(RequestId, Digest)>)
    requires first <= rows <= store.trace && RowsTaken(store.start, rows, |first|, store.me, written)
    requires Puts(rows[|first|..], store.me, {}, owners)
    requires Puts(store.trace[|rows|..], store.me, LateOwners(store.world.c, written), {})
    ensures OnlyLatePlaced(store, |first|)
  {
    hide WroteRow, IsStraggler;
    NoLivePuts(rows, |first|, store.me, owners);
    assert forall i :: |first| <= i < |rows| ==> store.trace[i] == rows[i];
    forall i | |rows| <= i < |store.trace| && store.trace[i].actor == store.me && store.trace[i].act.PutPosition?
      ensures PlacedFor(store, |first|, i)
    {
      assert store.trace[|rows|..][i - |rows|] == store.trace[i];
      LateIsTaken(store, first, rows, written, i);
    }
  }

  lemma NoLivePuts(trace: seq<Step>, from: nat, me: nat, owners: set<(RequestId, Digest)>)
    requires from <= |trace| && Puts(trace[from..], me, {}, owners)
    ensures forall i :: from <= i < |trace| ==> !(trace[i].actor == me && trace[i].act.PutPosition?)
  {
    forall i | from <= i < |trace| ensures !(trace[i].actor == me && trace[i].act.PutPosition?) {
      assert trace[from..][i - from] == trace[i];
    }
  }

  lemma LateIsTaken(store: Store, first: seq<Step>, rows: seq<Step>, written: seq<PreQueueWrite>, i: nat)
    requires first <= rows <= store.trace && |rows| <= i < |store.trace| && store.trace[i].act.PutPosition?
    requires RowsTaken(store.start, rows, |first|, store.me, written)
    requires (store.trace[i].act.id, store.trace[i].act.digest) in LateOwners(store.world.c, written)
    ensures PlacedFor(store, |first|, i)
  {
    hide IsStraggler;
    var wr :| wr in written && IsStraggler(store.world.c, wr) && (wr.id, wr.digest) == (store.trace[i].act.id, store.trace[i].act.digest);
    var k :| 0 <= k < |written| && written[k] == wr;
    assert TakenAt(store.start, rows, |first|, store.me, written[k]);
    var m: nat :| |first| <= m < |rows| && WroteRow(store.start, rows, m, store.me) && RowOf(rows[m].act) == wr;
    AtStays(store.start, rows, store.trace, m);
    assert WroteRow(store.start, store.trace, m, store.me);
  }

  /** Every row this process wrote from `from` on is settled by a read of the
      counters it made later, as one of its calls from `calls` on. */
  ghost predicate EveryRowClosedOn(store: Store, from: nat, calls: nat)
    reads store
  {
    forall i :: from <= i < |store.trace| && WroteRow(store.start, store.trace, i, store.me) ==>
      exists k :: calls <= k && ClosesOn(store, i, k)
  }

  /** The rows listed before a closing read, placed if it saw the open, are settled. */
  lemma ListedAreClosedOn(store: Store, from: nat, calls: nat, k: nat, written: seq<PreQueueWrite>)
    requires store.Valid() && calls <= k < |store.log| && store.log[k].op == GetCounters && store.log[k].at <= |store.trace|
    requires RowsListed(store.start, store.trace, from, store.me, written)
    requires forall i :: store.log[k].at <= i < |store.trace| ==> !WroteRow(store.start, store.trace, i, store.me)
    requires store.Saw(k).c.opening.Some? ==> StragglersPlaced(store.world.c, written, store.world)
    ensures EveryRowClosedOn(store, from, calls)
  {
    hide Inv, Exec, Legal, Store.Valid, WroteRow;
    store.Stored();
    forall i | from <= i < |store.trace| && WroteRow(store.start, store.trace, i, store.me)
      ensures ClosesOn(store, i, k)
    {
      RowIsPut(store.start, store.trace, i, store.me);
      if IsStraggler(store.world.c, RowOf(store.trace[i].act)) && store.Saw(k).c.opening.None? {
        OpenedBetween(store.start, store.trace, store.log[k].at);
      }
    }
  }

  lemma RowIsPut(start: World, trace: seq<Step>, i: nat, me: nat)
    requires WroteRow(start, trace, i, me)
    ensures i < |trace| && trace[i].act.PutPrequeue?
  {
  }

  /** What the lookups, the calls from `from` up to `to`, found: nothing if one failed,
      and otherwise every id with a row in `before`, but for the keys a chunk of a
      hundred dropped; never one without a row. */
  ghost predicate LookedUp(fates: nat -> Fate, dropped: (nat, RequestId) -> bool, joins: seq<Join>, known: set<RequestId>,
                           before: World, after: World, from: nat, to: nat)
  {
    && from <= to && (forall id :: id in known ==> id in after.prequeue)
    && if AllAnswered(fates, from, to)
       then to == from + (|joins| + 99) / 100 && forall i :: 0 <= i < |joins| && joins[i].msg.requestId in before.prequeue ==>
              joins[i].msg.requestId in known || dropped(from + i / 100, joins[i].msg.requestId)
       else known == {}
  }

  lemma LookupIs(store: Store, joins: seq<Join>, answer: Result<set<RequestId>, StoreError>, before: World, from: nat)
    requires from <= |store.log| && (answer.Ok? <==> AllAnswered(store.fates, from, |store.log|))
    requires answer.Ok? ==>
               && |store.log| == from + (|Ids(joins)| + 99) / 100 && (forall id :: id in answer.value ==> id in store.world.prequeue)
               && forall i :: 0 <= i < |Ids(joins)| && Ids(joins)[i] in before.prequeue && !store.dropped(from + i / 100, Ids(joins)[i]) ==>
                    Ids(joins)[i] in answer.value
    ensures LookedUp(store.fates, store.dropped, joins, if answer.Ok? then answer.value else {}, before, store.world, from, |store.log|)
  {
    hide AllAnswered;
    assert forall i :: 0 <= i < |joins| ==> Ids(joins)[i] == joins[i].msg.requestId;
  }

  /** The joins whose id the lookup did not find are registered, as one group. */
  ghost predicate RegistersNew(store: Store, shard: nat, joins: seq<Join>, failures: seq<string>, before: World, from: nat)
    reads store
  {
    exists known: set<RequestId>, group: seq<Join>, k: nat ::
      && LookedUp(store.fates, store.dropped, joins, known, before, store.world, from, k) && Left(joins, known, group)
      && RegistersGroup(store.trace, store.log, store.fates, store.me, TooWide(store.world, shard), shard, group, failures, k)
  }

  lemma NewRegistered(store: Store, shard: nat, joins: seq<Join>, known: set<RequestId>, group: seq<Join>, failures: seq<string>,
                      before: World, at: World, from: nat, k: nat)
    requires LookedUp(store.fates, store.dropped, joins, known, before, at, from, k) && Left(joins, known, group)
    requires at.prequeue.Keys <= store.world.prequeue.Keys
    requires RegistersGroup(store.trace, store.log, store.fates, store.me, TooWide(store.world, shard), shard, group, failures, k)
    ensures RegistersNew(store, shard, joins, failures, before, from)
  {
    hide Left, RegistersGroup, AllAnswered;
    assert LookedUp(store.fates, store.dropped, joins, known, before, store.world, from, k);
  }

  lemma NoneRegistered(store: Store, shard: nat, joins: seq<Join>, known: set<RequestId>, before: World, from: nat)
    requires LookedUp(store.fates, store.dropped, joins, known, before, store.world, from, |store.log|) && Left(joins, known, [])
    ensures RegistersNew(store, shard, joins, [], before, from)
  {
    hide Left, LookedUp;
    NewRegistered(store, shard, joins, known, [], [], before, store.world, from, |store.log|);
  }

  lemma NoneHandedBack(joins: seq<Join>)
    ensures OnlyAccepted(joins, [])
  {
  }

  lemma NonePlaced(store: Store, from: nat)
    requires from <= |store.trace| && Puts(store.trace[from..], store.me, {}, {})
    ensures OnlyLatePlaced(store, from)
  {
    NoLivePuts(store.trace, from, store.me, {});
  }

  lemma LateAreRows(c: Counters, written: seq<PreQueueWrite>)
    ensures LateOwners(c, written) <= RowOwners(written)
  {
    hide IsStraggler;
  }

  /** Rows for `group`, then live rows for those of them that are late: every put is
      for one of the group, and only late rows are placed. */
  lemma BatchPuts(store: Store, first: seq<Step>, read: seq<Step>, rows: seq<Step>, written: seq<PreQueueWrite>,
                  group: seq<Join>, joins: seq<Join>, known: set<RequestId>)
    requires first <= read <= rows <= store.trace && NotBy(read[|first|..], store.me)
    requires Left(joins, known, group)
    requires RowsTaken(store.start, rows, |read|, store.me, written)
    requires Puts(rows[|read|..], store.me, {}, Owners(group)) && RowOwners(written) <= Owners(group)
    requires Puts(store.trace[|rows|..], store.me, LateOwners(store.world.c, written), {})
    ensures OnlyLatePlaced(store, |first|)
    ensures Puts(store.trace[|first|..], store.me, Owners(joins), Owners(joins))
  {
    hide Puts, Owners, RowOwners, LateOwners, OnlyLatePlaced, RowsTaken, NotBy;
    FewerJoins(group, joins);
    TakenSooner(store.start, rows, |first|, |read|, store.me, written);
    PutsNothing(read[|first|..], store.me, {}, {});
    PutsJoin(first, read, rows, store.me, {}, {}, {}, Owners(group), {}, Owners(group));
    OnlyLateAre(store, first, rows, written, Owners(group));
    LateAreRows(store.world.c, written);
    PutsJoin(first, rows, store.trace, store.me, {}, Owners(group), LateOwners(store.world.c, written), {},
             Owners(joins), Owners(joins));
  }

  /** With no failure, every row listed is settled by the closing read. */
  lemma BatchCloses(store: Store, first: seq<Step>, read: seq<Step>, rows: seq<Step>, written: seq<PreQueueWrite>,
                    calls: nat, readCalls: nat, rowCalls: nat, atRead: World, atWritten: World)
    requires store.Valid() && first <= read <= rows <= store.trace && NotBy(read[|first|..], store.me)
    requires calls <= readCalls <= rowCalls <= |store.log| && Grows(atRead, atWritten) && Grows(atWritten, store.world)
    requires AllAnswered(store.fates, readCalls, rowCalls) ==> RowsListed(store.start, rows, |read|, store.me, written)
    requires written == [] ==> store.trace == rows
    requires written != [] ==>
               && NoRows(store.trace[|rows|..], store.me)
               && rowCalls < |store.log| && store.log[rowCalls].op == GetCounters && |rows| <= store.log[rowCalls].at <= |store.trace|
               && (Clean(store.fates, rowCalls, |store.log|, store.world) && store.Saw(rowCalls).c.opening.Some? ==>
                     StragglersPlaced(store.world.c, written, store.world))
    ensures Clean(store.fates, calls, |store.log|, store.world) ==>
              EveryRowClosedOn(store, |first|, calls) && Clean(store.fates, readCalls, rowCalls, atWritten)
  {
    hide Inv, Grows, Exec, Legal, Store.Valid, Clean, RowsListed, EveryRowClosedOn, AllAnswered, StragglersPlaced, Seen,
         NoRows, NotBy;
    if Clean(store.fates, calls, |store.log|, store.world) {
      CleanParts(store.fates, calls, rowCalls, |store.log|, atWritten, store.world);
      CleanParts(store.fates, calls, readCalls, rowCalls, atRead, atWritten);
      CleanAnswers(store.fates, readCalls, rowCalls, atWritten);
      QuietIsListed(store.start, first, read, store.me);
      ListedFromSooner(store.start, first, read, rows, store.me, written);
      if written == [] {
        NoneWritten(store, |first|, calls);
      } else {
        assert store.trace == rows + store.trace[|rows|..];
        RowsListedQuiet(store.start, rows, store.trace[|rows|..], |first|, store.me, written);
        NoneLater(store.start, store.trace, |rows|, store.me);
        ListedAreClosedOn(store, |first|, calls, rowCalls, written);
      }
    }
  }

  /** The ids found registered; none, if the lookup failed. */
  method RegisteredOrUnknown(store: Store, joins: seq<Join>) returns (registered: set<RequestId>)
    requires store.Valid()
    modifies store
    ensures store.Valid() && store.Since() && NotBy(store.trace[|old(store.trace)|..], store.me)
    ensures LookedUp(store.fates, store.dropped, joins, registered, old(store.world), store.world, |old(store.log)|, |store.log|)
    ensures forall id :: id in registered ==> id in store.world.prequeue
  {
    hide Inv, Grows, Exec, Legal, Store.Valid, NotBy, AllAnswered, Ids;
    var known := store.RegisteredIds(Ids(joins));
    LookupIs(store, joins, known, old(store.world), |old(store.log)|);
    registered := if known.Ok? then known.value else {};
  }

  /** The pre-queue path: register what is new, then place what came too late. */
  method ProcessPrequeueBatch(store: Store, shard: nat, valid: seq<Join>) returns (failures: seq<string>)
    requires store.Valid() && valid != [] && shard < SHARDS
    modifies store
    ensures store.Valid() && store.Since()
    ensures NoJoinLost(valid, failures, store.world) && OnlyAccepted(valid, failures)
    ensures OnlyLatePlaced(store, |old(store.trace)|)
    ensures RegistersNew(store, shard, Firsts(valid), failures, old(store.world), |old(store.log)|)
    ensures Puts(store.trace[|old(store.trace)|..], store.me, Owners(Firsts(valid)), Owners(Firsts(valid)))
    ensures Clean(store.fates, |old(store.log)|, |store.log|, store.world) ==>
              failures == [] && EveryRowClosedOn(store, |old(store.trace)|, |old(store.log)|)
  {
    hide Inv, Grows, Exec, Legal, Store.Valid, Clean, RowsListed, EveryRowClosedOn, AllAnswered, NoJoinLost,
         StragglersPlaced, Seen, Puts, Owners, RowOwners, Firsts, HandsBack, RegistersNew, OnlyLatePlaced, RowsTaken,
         LateOwners, RegistersGroup, LookedUp, Left, TooWide, NotBy, NoRows, DedupeOf, Distinct, OnlyAccepted, Ids,
         RowsWritten, Elements;
    var deduped := Dedupe(valid);
    var registered := RegisteredOrUnknown(store, deduped);
    ghost var atRead, afterRead, readCalls := store.world, store.trace, |store.log|;
    var group := Unregistered(deduped, registered);
    if group == [] {
      QuietIsListed(store.start, old(store.trace), afterRead, store.me);
      PutsNothing(afterRead[|old(store.trace)|..], store.me, Owners(deduped), Owners(deduped));
      PutsNothing(afterRead[|old(store.trace)|..], store.me, {}, {});
      NoneRegistered(store, shard, deduped, registered, old(store.world), |old(store.log)|);
      NonePlaced(store, |old(store.trace)|);
      NoneHandedBack(group);
      NothingLost(valid, deduped, group, registered, [], store.world);
      NoneWritten(store, |old(store.trace)|, |old(store.log)|);
      return [];
    }
    var written;
    failures, written := RegisterGroup(store, shard, group);
    ghost var atWritten, afterRows, rowLog, rowCalls := store.world, store.trace, store.log, |store.log|;
    GrowsRefl(atWritten);
    GrowsTrans(old(store.world), atRead, store.world);
    ClaimsKept(atRead, store.world);
    NothingLost(valid, deduped, group, registered, failures, store.world);
    if written != [] {
      FixupStragglers(store, written);
      GroupStays(afterRows, rowLog, store.trace, store.log, store.fates, store.me, TooWide(atWritten, shard), TooWide(store.world, shard),
                 shard, group, failures, readCalls);
      PutsNoRows(store.trace[|afterRows|..], store.me, LateOwners(store.world.c, written));
      GrowsTrans(old(store.world), atWritten, store.world);
      LossesKept(valid, failures, atWritten, store.world);
      ClaimsKept(atWritten, store.world);
    } else {
      PutsNothingYet(afterRows, store.me, LateOwners(store.world.c, written), {});
    }
    NewRegistered(store, shard, deduped, registered, group, failures, old(store.world), atRead, |old(store.log)|, readCalls);
    BatchPuts(store, old(store.trace), afterRead, afterRows, written, group, deduped, registered);
    BatchCloses(store, old(store.trace), afterRead, afterRows, written, |old(store.log)|, readCalls, rowCalls, atRead, atWritten);
  }

  lemma CleanAnswers(fates: nat -> Fate, from: nat, to: nat, w: World)
    requires Clean(fates, from, to, w)
    ensures AllAnswered(fates, from, to)
  {
  }

  lemma QuietIsListed(start: World, trace: seq<Step>, trace': seq<Step>, me: nat)
    requires trace <= trace' && NotBy(trace'[|trace|..], me)
    ensures RowsListed(start, trace', |trace|, me, [])
  {
    NothingListed(start, trace, me);
    NotByNoRows(trace'[|trace|..], me);
    assert trace' == trace + trace'[|trace|..];
    RowsListedQuiet(start, trace, trace'[|trace|..], |trace|, me, []);
  }

  /** Nothing was written before `mid`, so a list from there is a list from the start. */
  lemma ListedFromSooner(start: World, trace: seq<Step>, mid: seq<Step>, end: seq<Step>, me: nat, written: seq<PreQueueWrite>)
    requires trace <= mid <= end
    requires RowsListed(start, mid, |trace|, me, []) && RowsListed(start, end, |mid|, me, written)
    ensures RowsListed(start, end, |trace|, me, written)
  {
    forall i | |trace| <= i < |end|
      ensures WroteRow(start, end, i, me) ==> RowOf(end[i].act) in written
    {
      if i < |mid| {
        NotYetWritten(start, mid, end, |trace|, i, me);
      }
    }
  }

  lemma NoneLater(start: World, trace: seq<Step>, from: nat, me: nat)
    requires from <= |trace| && NoRows(trace[from..], me)
    ensures forall i :: from <= i < |trace| ==> !WroteRow(start, trace, i, me)
  {
    forall i | from <= i < |trace|
      ensures !WroteRow(start, trace, i, me)
    {
      assert trace[i] == trace[from..][i - from];
    }
  }

  lemma NoneWritten(store: Store, from: nat, calls: nat)
    requires RowsListed(store.start, store.trace, from, store.me, [])
    ensures EveryRowClosedOn(store, from, calls)
  {
  }

  lemma NothingLost(joins: seq<Join>, deduped: seq<Join>, group: seq<Join>, registered: set<RequestId>,
                    failures: seq<string>, w: World)
    requires DedupeOf(joins, deduped)
    requires Left(deduped, registered, group)
    requires forall id :: id in registered ==> id in w.prequeue
    requires forall i :: 0 <= i < |group| ==>
               group[i].msg.requestId in w.prequeue || group[i].messageId in failures
    requires OnlyAccepted(group, failures)
    ensures NoJoinLost(joins, failures, w) && OnlyAccepted(joins, failures)
  {
    hide DedupeOf, Registered, ReportsFailure;
    forall i | 0 <= i < |joins|
      ensures Registered(w, joins[i].msg.requestId) || ReportsFailure(joins, failures, joins[i].msg.requestId)
    {
      var k := Representative(joins, deduped, i);
      KeptOrReturned(joins, deduped, group, registered, failures, w, k);
    }
    forall f | f in failures
      ensures exists j :: 0 <= j < |joins| && joins[j].messageId == f
    {
      var g :| 0 <= g < |group| && group[g].messageId == f;
      var j := FromBatch(joins, deduped, group[g]);
    }
  }

  /** The message kept for the id of a message of the batch. */
  lemma Representative(joins: seq<Join>, deduped: seq<Join>, i: nat) returns (k: nat)
    requires DedupeOf(joins, deduped) && i < |joins|
    ensures k < |deduped| && deduped[k].msg.requestId == joins[i].msg.requestId
  {
    k :| 0 <= k < |deduped| && Ids(deduped)[k] == joins[i].msg.requestId;
  }

  lemma FromBatch(joins: seq<Join>, deduped: seq<Join>, join: Join) returns (j: nat)
    requires DedupeOf(joins, deduped) && join in deduped
    ensures j < |joins| && joins[j] == join
  {
    var k :| 0 <= k < |deduped| && deduped[k] == join;
    j :| 0 <= j < |joins| && joins[j] == deduped[k];
  }

  lemma KeptOrReturned(joins: seq<Join>, deduped: seq<Join>, group: seq<Join>, registered: set<RequestId>,
                       failures: seq<string>, w: World, k: nat)
    requires DedupeOf(joins, deduped) && k < |deduped|
    requires deduped[k].msg.requestId in registered || deduped[k] in group
    requires forall id :: id in registered ==> id in w.prequeue
    requires forall i :: 0 <= i < |group| ==>
               group[i].msg.requestId in w.prequeue || group[i].messageId in failures
    ensures var id := deduped[k].msg.requestId; Registered(w, id) || ReportsFailure(joins, failures, id)
  {
    hide DedupeOf;
    if deduped[k].msg.requestId !in registered {
      var g :| 0 <= g < |group| && group[g] == deduped[k];
      var j := FromBatch(joins, deduped, deduped[k]);
    }
  }

  lemma LossesKept(joins: seq<Join>, failures: seq<string>, w: World, w': World)
    requires Grows(w, w') && NoJoinLost(joins, failures, w)
    ensures NoJoinLost(joins, failures, w')
  {
    forall i | 0 <= i < |joins|
      ensures Registered(w', joins[i].msg.requestId) || ReportsFailure(joins, failures, joins[i].msg.requestId)
    {
      if Registered(w, joins[i].msg.requestId) {
        RegisteredKept(w, w', joins[i].msg.requestId);
      }
    }
  }

  /** Every message not handed back has a live position row for its id. */
  ghost predicate EachPlacedOrReturned(joins: seq<Join>, failures: seq<string>, w: World)
  {
    forall i :: 0 <= i < |joins| ==>
      joins[i].msg.requestId in w.positions || joins[i].messageId in failures
  }

  lemma LiveLosesNone(joins: seq<Join>, failures: seq<string>, w: World)
    requires EachPlacedOrReturned(joins, failures, w)
    ensures NoJoinLost(joins, failures, w)
  {
  }

  /** The route a batch takes: what its call `k`, the one read of the counters,
      was answered. */
  ghost function RouteAt(store: Store, k: nat): Route
    reads store
  {
    if store.fates(k) != Answered then Refused else RouteOf(store.Saw(k))
  }

  /** The whole batch. Whatever other processes do in between, an accepted batch makes
      one read of the counters first and takes the route that read decides: refused, it
      takes no step and hands everything back; live, every message not handed back has
      its own row; registering, no join is lost. Every row it writes, live or pre-queue,
      is one accepted join's, with that join's digest: the first one's, registering;
      live, they get their places in the order they came. What is claimed is one block:
      live, for the batch; registering, for exactly those the lookup did not find.
      Handed back are exactly those whose own write failed, or all when the block could
      not be claimed. Registering, a live row is written only for a row of its own that
      the open did not count. And if no call failed, every row it wrote was followed by
      a read of the counters: if that read saw the event open, a row past its shard's
      count holds a live position, and otherwise the open committed after it. */
  method ProcessBatch(store: Store, eventId: string, shard: nat, records: seq<BatchRecord>) returns (failures: seq<string>)
    requires store.Valid() && shard < SHARDS
    modifies store
    ensures store.Valid() && store.Since()
    ensures OnlyAccepted(Accepted(records, eventId), failures)
    ensures NoJoinLost(Accepted(records, eventId), failures, store.world)
    ensures Accepted(records, eventId) == [] ==> failures == [] && store.trace == old(store.trace) && store.log == old(store.log)
    ensures Accepted(records, eventId) != [] ==>
              |old(store.log)| < |store.log| && store.log[|old(store.log)|].op == GetCounters
    ensures Accepted(records, eventId) != [] && RouteAt(store, |old(store.log)|) == Refused ==>
              NotBy(store.trace[|old(store.trace)|..], store.me) && |failures| == |Accepted(records, eventId)|
    ensures Accepted(records, eventId) != [] && RouteAt(store, |old(store.log)|) == Live ==>
              EachPlacedOrReturned(Accepted(records, eventId), failures, store.world)
    ensures var k := |old(store.log)|; var joins := Accepted(records, eventId);
            && (joins != [] && RouteAt(store, k) == Live ==> PlacesBatch(store, joins, failures, k + 1))
            && (joins != [] && RouteAt(store, k) == Registering ==>
                  && RegistersNew(store, shard, Firsts(joins), failures, store.Saw(k), k + 1)
                  && OnlyLatePlaced(store, |old(store.trace)|))
    ensures Clean(store.fates, |old(store.log)|, |store.log|, store.world) && failures != [] ==>
              RouteAt(store, |old(store.log)|) == Refused
    ensures Clean(store.fates, |old(store.log)|, |store.log|, store.world) ==>
              EveryRowClosedOn(store, |old(store.trace)|, |old(store.log)|)
    ensures var joins := Accepted(records, eventId);
            var owners := Owners(if joins != [] && RouteAt(store, |old(store.log)|) == Registering then Firsts(joins) else joins);
            Puts(store.trace[|old(store.trace)|..], store.me, owners, owners)
  {
    hide Inv, Grows, Exec, Legal, Store.Valid, Clean, EveryRowClosedOn, Seen, NoJoinLost, OnlyAccepted,
         EachPlacedOrReturned, RowsListed, Puts, Owners, Firsts, HandsBack, RegistersNew, OnlyLatePlaced, NotBy, NoRows,
         PlacesBatch;
    var valid := ClassifyAll(records, eventId);
    GrowsRefl(store.world);
    if valid == [] {
      FailedAllLosesNone(valid, [], store.world);
      NothingListed(store.start, store.trace, store.me);
      NoneWritten(store, |store.trace|, |store.log|);
      PutsNothingYet(store.trace, store.me, Owners(valid), Owners(valid));
      return [];
    }
    store.OthersOnly();
    var read := store.LoadCounters();
    ghost var atRead, prefix, calls := store.world, store.trace, store.log;
    store.Stored();
    assert prefix[|old(store.trace)|..] == store.others(|old(store.log)|, old(store.world));
    QuietIsListed(store.start, old(store.trace), prefix, store.me);
    PutsNothing(prefix[|old(store.trace)|..], store.me, Owners(valid), Owners(valid));
    if RouteAt(store, |old(store.log)|) == Refused {
      NoneWritten(store, |old(store.trace)|, |old(store.log)|);
    }
    if read.Err? || read.value.None? {
      failures := FailAll(valid);
      FailedAllLosesNone(valid, failures, store.world);
      return failures;
    }
    var counters := read.value.value;
    if counters.opening.Some? {
      failures := ProcessLiveBatch(store, valid);
      LivePuts(store, old(store.trace), prefix, valid, |old(store.log)|);
      GrowsTrans(old(store.world), atRead, store.world);
      LiveLosesNone(valid, failures, store.world);
    } else if counters.phase == PreQueue {
      failures := ProcessPrequeueBatch(store, shard, valid);
      PrequeuePuts(store, old(store.trace), prefix, Owners(Firsts(valid)), |old(store.log)|, |calls|);
      GrowsTrans(old(store.world), atRead, store.world);
    } else {
      failures := FailAll(valid);
      FailedAllLosesNone(valid, failures, store.world);
      return failures;
    }
    SeenStays(store.start, prefix, calls, store.trace, store.log, store.lag, |old(store.log)|);
    if Clean(store.fates, |old(store.log)|, |store.log|, store.world) {
      CleanParts(store.fates, |old(store.log)|, |calls|, |store.log|, atRead, store.world);
    }
  }

  /** A live batch behind a quiet read. */
  lemma LivePuts(store: Store, first: seq<Step>, prefix: seq<Step>, valid: seq<Join>, calls: nat)
    requires first <= prefix <= store.trace && NotBy(prefix[|first|..], store.me)
    requires RowsListed(store.start, prefix, |first|, store.me, [])
    requires Puts(store.trace[|prefix|..], store.me, Owners(valid), {})
    ensures Puts(store.trace[|first|..], store.me, Owners(valid), Owners(valid))
    ensures EveryRowClosedOn(store, |first|, calls)
  {
    hide Puts, Owners, RowsListed, EveryRowClosedOn, NotBy;
    PutsNothing(prefix[|first|..], store.me, {}, {});
    PutsJoin(first, prefix, store.trace, store.me, {}, {}, Owners(valid), {}, Owners(valid), Owners(valid));
    PutsNoRows(store.trace[|prefix|..], store.me, Owners(valid));
    assert store.trace == prefix + store.trace[|prefix|..];
    RowsListedQuiet(store.start, prefix, store.trace[|prefix|..], |first|, store.me, []);
    NoneWritten(store, |first|, calls);
  }

  /** A registering batch behind a quiet read. */
  lemma PrequeuePuts(store: Store, first: seq<Step>, prefix: seq<Step>, owners: set<(RequestId, Digest)>, calls: nat, later: nat)
    requires first <= prefix <= store.trace && NotBy(prefix[|first|..], store.me) && calls <= later
    requires RowsListed(store.start, prefix, |first|, store.me, [])
    requires Puts(store.trace[|prefix|..], store.me, owners, owners) && OnlyLatePlaced(store, |prefix|)
    ensures Puts(store.trace[|first|..], store.me, owners, owners) && OnlyLatePlaced(store, |first|)
    ensures EveryRowClosedOn(store, |prefix|, later) ==> EveryRowClosedOn(store, |first|, calls)
  {
    hide Puts, RowsListed, EveryRowClosedOn, OnlyLatePlaced, NotBy;
    PutsNothing(prefix[|first|..], store.me, owners, owners);
    PutsJoin(first, prefix, store.trace, store.me, owners, owners, owners, owners, owners, owners);
    PlacedFromSooner(store, first, prefix);
    if EveryRowClosedOn(store, |prefix|, later) {
      ClosedFromSooner(store, first, prefix, calls, later);
    }
  }

  lemma PlacedFromSooner(store: Store, first: seq<Step>, mid: seq<Step>)
    requires first <= mid <= store.trace && NotBy(mid[|first|..], store.me) && OnlyLatePlaced(store, |mid|)
    ensures OnlyLatePlaced(store, |first|)
  {
    hide WroteRow, IsStraggler;
    assert forall i :: |first| <= i < |mid| ==> store.trace[i] == mid[|first|..][i - |first|];
    forall i | |mid| <= i < |store.trace| && store.trace[i].actor == store.me && store.trace[i].act.PutPosition?
      ensures PlacedFor(store, |first|, i)
    {
      assert PlacedFor(store, |mid|, i);
    }
  }

  lemma NotYetWritten(start: World, mid: seq<Step>, trace: seq<Step>, from: nat, i: nat, me: nat)
    requires mid <= trace && from <= i < |mid| && RowsListed(start, mid, from, me, [])
    ensures !WroteRow(start, trace, i, me)
  {
    AtStays(start, mid, trace, i);
    assert !WroteRow(start, mid, i, me);
  }

  lemma ClosedFromSooner(store: Store, trace: seq<Step>, mid: seq<Step>, calls: nat, later: nat)
    requires trace <= mid <= store.trace && calls <= later
    requires RowsListed(store.start, mid, |trace|, store.me, []) && EveryRowClosedOn(store, |mid|, later)
    ensures EveryRowClosedOn(store, |trace|, calls)
  {
    forall i | |trace| <= i < |store.trace|
      ensures WroteRow(store.start, store.trace, i, store.me) ==> exists k :: calls <= k && ClosesOn(store, i, k)
    {
      if i < |mid| {
        NotYetWritten(store.start, mid, store.trace, |trace|, i, store.me);
      } else if WroteRow(store.start, store.trace, i, store.me) {
        var k :| later <= k && ClosesOn(store, i, k);
      }
    }
  }
}
