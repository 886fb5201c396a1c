/** The gate document in its key-value store, shared by concurrent operators: a
    version, the stored text, and conditional puts under the version a read saw.
    Every action is a read-modify-write of one field. */
module GateStore {
  import opened Common
  import opened GateConfig
  import opened QueueStore

  /** The field an action replaces, with its new value. */
  datatype GateEdit = SetDeadline(until: u64) | SetRules(rules: seq<ProtectionRule>) | SetBinding(on: bool)

  datatype Commit = Commit(actor: nat, edit: GateEdit)

  /** `start` and `commits` are bookkeeping: the document the store was seeded with,
      and every edit committed since. */
  datatype Gate = Gate(version: nat, text: string, start: GateConfig, commits: seq<Commit>)

  /** A put of document `c` under version `etag`, by `actor`, to carry out `edit`. */
  datatype Put = Put(actor: nat, etag: nat, edit: GateEdit, c: GateConfig)

  datatype EdgeStoreError = EdgeStoreError

  function Edited(c: GateConfig, edit: GateEdit): GateConfig
  {
    match edit
    case SetDeadline(until) => c.(failOpenUntil := until)
    case SetRules(rules) => c.(rules := rules)
    case SetBinding(on) => c.(bindIp := on)
  }

  /** The document after a list of edits, each replacing one field. */
  function Replay(c: GateConfig, commits: seq<Commit>): GateConfig
  {
    if commits == [] then c
    else Edited(Replay(c, commits[..|commits| - 1]), commits[|commits| - 1].edit)
  }

  function Current(g: Gate): GateConfig { Replay(g.start, g.commits) }

  predicate PutLands(g: Gate, p: Put) { p.etag == g.version }

  function Apply(g: Gate, p: Put): Gate
  {
    if PutLands(g, p)
    then Gate(g.version + 1, Text(p.c), g.start, g.commits + [Commit(p.actor, p.edit)])
    else g
  }

  /** When a process may send a put; every process below proves its puts meet it. */
  ghost predicate Enabled(g: Gate, p: Put)
  {
    && EncodeGateConfig(p.c).Ok?
    && (PutLands(g, p) ==> p.c == Edited(Current(g), p.edit))
    && (p.edit.SetRules? ==> BaseSize(g.start.(rules := p.edit.rules)) < RULES_WRITE_CEILING)
  }

  function Exec(g: Gate, run: seq<Put>): Gate
  {
    if run == [] then g else Apply(Exec(g, run[..|run| - 1]), run[|run| - 1])
  }

  ghost predicate Legal(g: Gate, run: seq<Put>)
  {
    run == [] || (Legal(g, run[..|run| - 1]) && Enabled(Exec(g, run[..|run| - 1]), run[|run| - 1]))
  }

  ghost predicate NotBy(run: seq<Put>, me: nat)
  {
    forall i :: 0 <= i < |run| ==> run[i].actor != me
  }

  /** A seeded document leaves the headroom the rules writer reserves. */
  predicate Seeded(c: GateConfig)
  {
    EncodeGateConfig(c).Ok? && BaseSize(c) < RULES_WRITE_CEILING
  }

  ghost predicate Inv(g: Gate)
  {
    && g.version == |g.commits|
    && g.text == Text(Current(g))
    && Seeded(Current(g))
    && Current(g).v == g.start.v && Current(g).enforceFrom == g.start.enforceFrom
  }

  /** What no put undoes; an unchanged version is an unchanged document. */
  ghost predicate Grows(g: Gate, g': Gate)
  {
    g'.start == g.start && g.commits <= g'.commits
  }

  lemma SameVersionSameDocument(g: Gate, g': Gate)
    requires Inv(g) && Inv(g') && Grows(g, g') && g.version == g'.version
    ensures g == g'
  {
    assert g.commits == g'.commits;
  }

  lemma BaseSizeOf(c: GateConfig, d: GateConfig)
    requires c.v == d.v && c.enforceFrom == d.enforceFrom && c.rules == d.rules
    ensures BaseSize(c) == BaseSize(d)
  {
    assert c.(failOpenUntil := 0, bindIp := false) == d.(failOpenUntil := 0, bindIp := false);
  }

  lemma PutKeepsInv(g: Gate, p: Put)
    requires Inv(g) && Enabled(g, p)
    ensures Inv(Apply(g, p)) && Grows(g, Apply(g, p))
  {
    hide EncodeGateConfig, BaseSize, Text;
    var g' := Apply(g, p);
    if PutLands(g, p) {
      assert g'.commits[..|g.commits|] == g.commits;
      assert Current(g') == p.c;
      if p.edit.SetRules? {
        BaseSizeOf(p.c, g.start.(rules := p.edit.rules));
      } else {
        BaseSizeOf(p.c, Current(g));
      }
    }
  }

  lemma {:induction false} RunKeepsInv(g: Gate, run: seq<Put>)
    requires Inv(g) && Legal(g, run)
    ensures Inv(Exec(g, run)) && Grows(g, Exec(g, run))
  {
    hide Inv;
    if run != [] {
      RunKeepsInv(g, run[..|run| - 1]);
      PutKeepsInv(Exec(g, run[..|run| - 1]), run[|run| - 1]);
    }
  }

  // ---- What the protocol promises ---------------------------------------------------

  /** The last edit of each field among the commits, or what it was seeded with. */
  function LastDeadline(start: u64, commits: seq<Commit>): u64
  {
    if commits == [] then start
    else
      var last := commits[|commits| - 1].edit;
      if last.SetDeadline? then last.until else LastDeadline(start, commits[..|commits| - 1])
  }

  function LastRules(start: seq<ProtectionRule>, commits: seq<Commit>): seq<ProtectionRule>
  {
    if commits == [] then start
    else
      var last := commits[|commits| - 1].edit;
      if last.SetRules? then last.rules else LastRules(start, commits[..|commits| - 1])
  }

  function LastBinding(start: bool, commits: seq<Commit>): bool
  {
    if commits == [] then start
    else
      var last := commits[|commits| - 1].edit;
      if last.SetBinding? then last.on else LastBinding(start, commits[..|commits| - 1])
  }

  lemma {:induction false} EditsOnlyTheirField(c: GateConfig, commits: seq<Commit>)
    ensures Replay(c, commits) == GateConfig(c.v, c.enforceFrom, LastDeadline(c.failOpenUntil, commits),
                                             LastRules(c.rules, commits), LastBinding(c.bindIp, commits))
  {
    if commits != [] {
      EditsOnlyTheirField(c, commits[..|commits| - 1]);
    }
  }

  /** However operators interleave, the stored document reads back as: the version
      and `enforceFrom` it was seeded with, and for each other field the value of
      the last action on that field. No action reverts another's field. */
  lemma NoActionReverts(start: GateConfig, run: seq<Put>)
    requires Seeded(start) && Legal(Gate(0, Text(start), start, []), run)
    ensures var g := Exec(Gate(0, Text(start), start, []), run);
            && g.version == |g.commits|
            && DecodeGateConfig(g.text)
               == Some(GateConfig(start.v, start.enforceFrom, LastDeadline(start.failOpenUntil, g.commits),
                                  LastRules(start.rules, g.commits), LastBinding(start.bindIp, g.commits)))
  {
    hide Text, DecodeGateConfig;
    var first := Gate(0, Text(start), start, []);
    RunKeepsInv(first, run);
    var g := Exec(first, run);
    StoredIsRead(Current(g));
    EditsOnlyTheirField(start, g.commits);
  }

  /** After any interleaving of accepted actions, a deadline of at most twelve
      digits can still be written: no accepted ruleset blocks a later fail-open. */
  lemma BreakGlassNeverBlocked(start: GateConfig, run: seq<Put>)
    requires Seeded(start) && Legal(Gate(0, Text(start), start, []), run)
    ensures FitsDeadlines(Current(Exec(Gate(0, Text(start), start, []), run)), 12)
  {
    var first := Gate(0, Text(start), start, []);
    RunKeepsInv(first, run);
    HeadroomExact(Current(Exec(first, run)));
  }

  predicate NoReplyLost(fates: nat -> Fate, from: nat, to: nat)
  {
    forall k :: from <= k < to ==> fates(k) != LostReply
  }

  lemma NoReplyLostEither(fates: nat -> Fate, from: nat, mid: nat, to: nat)
    requires from <= mid <= to && NoReplyLost(fates, from, to)
    ensures NoReplyLost(fates, from, mid) && NoReplyLost(fates, mid, to)
  {
  }

  /** The document stored when the `k`-th call of a log was made. */
  function DocAt(g: Gate, log: seq<nat>, k: nat): GateConfig
  {
    if k < |log| && log[k] <= |g.commits| then Replay(g.start, g.commits[..log[k]]) else g.start
  }

  lemma DocStays(g: Gate, log: seq<nat>, g': Gate, log': seq<nat>, k: nat)
    requires Grows(g, g') && log <= log' && k < |log| && log[k] <= |g.commits|
    ensures DocAt(g', log', k) == DocAt(g, log, k)
  {
    assert g'.commits[..log[k]] == g.commits[..log[k]];
  }

  lemma DocNow(g: Gate, log: seq<nat>)
    requires log != [] && log[|log| - 1] == |g.commits|
    ensures DocAt(g, log, |log| - 1) == Current(g)
  {
    assert g.commits[..|g.commits|] == g.commits;
  }

  // ---- The store as one process sees it -------------------------------------------------

  class Kvs {
    const me: nat
    /** What other operators put before this process's `k`-th call lands. */
    const others: (nat, Gate) -> seq<Put>
    const fates: nat -> Fate

    var gate: Gate
    /** This process's own calls: how many commits each found. */
    var log: seq<nat>

    constructor (me: nat, start: GateConfig, others: (nat, Gate) -> seq<Put>, fates: nat -> Fate)
      requires Seeded(start)
      requires forall k, g :: Inv(g) ==> Legal(g, others(k, g)) && NotBy(others(k, g), me)
      ensures Valid() && gate == Gate(0, Text(start), start, []) && log == []
    {
      this.me, this.others, this.fates := me, others, fates;
      gate, log := Gate(0, Text(start), start, []), [];
    }

    ghost predicate Valid()
      reads this
    {
      && Inv(gate) && (forall k :: 0 <= k < |log| ==> log[k] <= |gate.commits|)
      && forall k, g :: Inv(g) ==> Legal(g, others(k, g)) && NotBy(others(k, g), me)
    }

    lemma Held()
      requires Valid()
      ensures Inv(gate) && gate.version == |gate.commits| && Seeded(Current(gate))
      ensures forall k :: 0 <= k < |log| ==> log[k] <= |gate.commits|
    {
    }

    twostate predicate Since()
      reads this
    {
      Grows(old(gate), gate) && old(log) <= log
    }

    /** The document its `k`-th call found. */
    ghost function Doc(k: nat): GateConfig
      reads this
    {
      DocAt(gate, log, k)
    }

    /** The commits since an earlier count that are this process's. */
    ghost function Mine(since: nat): seq<Commit>
      requires since <= |gate.commits|
      reads this
    {
      By(gate.commits[since..], me)
    }

    method Interfere() returns (fate: Fate)
      requires Valid()
      modifies this
      ensures Valid() && Since() && log == old(log) + [|gate.commits|] && fate == fates(|old(log)|)
      ensures Mine(|old(gate).commits|) == []
    {
      hide Inv, Text, EncodeGateConfig;
      var run := others(|log|, gate);
      RunKeepsInv(gate, run);
      OthersCommit(gate, run, me);
      fate := fates(|log|);
      gate := Exec(gate, run);
      log := log + [|gate.commits|];
    }

    /** The store's version. */
    method Describe() returns (r: Result<nat, EdgeStoreError>)
      requires Valid()
      modifies this
      ensures Valid() && Since() && |log| == |old(log)| + 1
      ensures Mine(|old(gate).commits|) == []
      ensures r.Err? <==> fates(|old(log)|) != Answered
      ensures r.Ok? ==> r.value == gate.version
    {
      hide Inv;
      var fate := Interfere();
      r := if fate == Answered then Ok(gate.version) else Err(EdgeStoreError);
    }

    method GetKey() returns (r: Result<string, EdgeStoreError>)
      requires Valid()
      modifies this
      ensures Valid() && Since() && |log| == |old(log)| + 1
      ensures Mine(|old(gate).commits|) == []
      ensures r.Err? <==> fates(|old(log)|) != Answered
      ensures r.Ok? ==> r.value == gate.text
      ensures Doc(|old(log)|) == Current(gate)
    {
      hide Inv, DocAt, Replay;
      var fate := Interfere();
      DocNow(gate, log);
      r := if fate == Answered then Ok(gate.text) else Err(EdgeStoreError);
    }

    /** The put lands only if the store is still at the version given. `at` is the
        state it reached, if it reached one. */
    method PutKey(etag: nat, text: string, c: GateConfig, edit: GateEdit)
      returns (r: Result<(), EdgeStoreError>, ghost at: Gate)
      requires Valid() && text == Text(c) && etag <= gate.version && Enabled(gate, Put(me, etag, edit, c))
      modifies this
      ensures Valid() && Since() && |log| == |old(log)| + 1
      ensures Inv(at) && Grows(old(gate), at) && By(at.commits[|old(gate).commits|..], me) == []
      ensures Enabled(at, Put(me, etag, edit, c))
      ensures gate == if fates(|old(log)|) == Unreached then at else Apply(at, Put(me, etag, edit, c))
      ensures r.Ok? <==> fates(|old(log)|) == Answered && at.version == etag
      ensures r.Err? && fates(|old(log)|) == Answered ==> etag < gate.version
    {
      hide Inv, Text, EncodeGateConfig, BaseSize;
      var fate := Interfere();
      at := gate;
      VersionsGrow(old(gate), at);
      ghost var put := Put(me, etag, edit, c);
      StillEnabled(old(gate), at, put);
      if fate == Unreached {
        return Err(EdgeStoreError), at;
      }
      PutKeepsInv(at, put);
      var landed := gate.version == etag;
      if landed {
        gate := Gate(gate.version + 1, text, gate.start, gate.commits + [Commit(me, edit)]);
      }
      r := if landed && fate == Answered then Ok(()) else Err(EdgeStoreError);
    }

    // ---- The port -----------------------------------------------------------------

    /** Describe, then get. If the store has not moved past the version described,
        the value is what is stored under it. */
    method ReadConfig() returns (r: Result<(GateConfig, nat), EdgeStoreError>)
      requires Valid()
      modifies this
      ensures Valid() && Since()
      ensures Mine(|old(gate).commits|) == []
      ensures r.Ok? ==> old(gate).version <= r.value.1 <= gate.version && (r.value.1 == gate.version ==> r.value.0 == Current(gate))
      ensures r.Ok? ==> Seeded(r.value.0) && r.value.0.v == gate.start.v && r.value.0.enforceFrom == gate.start.enforceFrom
      ensures |old(log)| < |log| <= |old(log)| + 2
      ensures var k := |old(log)|; r.Ok? <==> fates(k) == fates(k + 1) == Answered
      ensures r.Ok? ==> |log| == |old(log)| + 2 && r.value.0 == Doc(|old(log)| + 1)
      ensures AllAnswered(fates, |old(log)|, |log|) ==> r.Ok?
    {
      hide Inv, Text, DecodeGateConfig, EncodeGateConfig, BaseSize;
      var etag := Describe();
      if etag.Err? {
        return Err(EdgeStoreError);
      }
      ghost var described := gate;
      VersionsGrow(old(gate), described);
      var text := GetKey();
      MineAdds(|old(gate).commits|, described);
      VersionsGrow(described, gate);
      if text.Err? {
        return Err(EdgeStoreError);
      }
      TextIsCurrent(gate);
      r := Ok((DecodeGateConfig(text.value).value, etag.value));
    }

    lemma MineAdds(since: nat, mid: Gate)
      requires since <= |mid.commits| && mid.commits <= gate.commits
      ensures Mine(since) == By(mid.commits[since..], me) + Mine(|mid.commits|)
    {
      assert gate.commits[since..] == mid.commits[since..] + gate.commits[|mid.commits|..];
      ByAppend(mid.commits[since..], gate.commits[|mid.commits|..], me);
    }

    /** The document put under the version it was read under. `landed` says whether
        the put was carried out, which an error does not rule out. */
    method WriteConfig(etag: nat, c: GateConfig, edit: GateEdit)
      returns (r: Result<(), EdgeStoreError>, ghost landed: bool)
      requires Valid() && etag <= gate.version
      requires etag == gate.version ==> c == Edited(Current(gate), edit)
      requires edit.SetRules? ==> BaseSize(gate.start.(rules := edit.rules)) < RULES_WRITE_CEILING
      modifies this
      ensures Valid() && Since()
      ensures Mine(|old(gate).commits|) == if landed then [Commit(me, edit)] else []
      ensures landed ==> |old(gate).commits| < |gate.commits| && gate.commits[|gate.commits| - 1] == Commit(me, edit) && Current(gate) == c
      ensures r.Ok? ==> landed
      ensures landed && NoReplyLost(fates, |old(log)|, |log|) ==> r.Ok?
      ensures r.Err? && AllAnswered(fates, |old(log)|, |log|) ==> EncodeGateConfig(c).Err? || etag < gate.version
    {
      hide Inv, Text, EncodeGateConfig, BaseSize, Current, Edited, By, Apply, Valid;
      landed := false;
      var encoded := EncodeGateConfig(c);
      if encoded.Err? {
        NoneSince(gate.commits, me);
        return Err(EdgeStoreError), landed;
      }
      EncodedIsText(c);
      ghost var at;
      r, at := PutKey(etag, encoded.value, c, edit);
      landed := fates(|old(log)|) != Unreached && at.version == etag;
      PutLeaves(old(gate).commits, at, Put(me, etag, edit, c));
    }
  }

  lemma NoneSince(commits: seq<Commit>, me: nat)
    ensures By(commits[|commits|..], me) == []
  {
  }

  /** What a put leaves of its process's commits, and of the document. */
  lemma PutLeaves(before: seq<Commit>, at: Gate, p: Put)
    requires Inv(at) && Enabled(at, p) && before <= at.commits && By(at.commits[|before|..], p.actor) == []
    ensures var g := Apply(at, p);
            if PutLands(at, p)
            then By(g.commits[|before|..], p.actor) == [Commit(p.actor, p.edit)] && Current(g) == p.c &&
                 |before| < |g.commits| && g.commits[|g.commits| - 1] == Commit(p.actor, p.edit)
            else g == at
  {
    hide Inv, Text, EncodeGateConfig, BaseSize;
    if PutLands(at, p) {
      assert Apply(at, p).commits[|before|..] == at.commits[|before|..] + [Commit(p.actor, p.edit)];
      ByAppend(at.commits[|before|..], [Commit(p.actor, p.edit)], p.actor);
      ByOne(Commit(p.actor, p.edit));
      CurrentAfter(at, p);
    }
  }

  lemma ByOne(c: Commit)
    ensures By([c], c.actor) == [c]
  {
    assert [c][..0] == [];
  }

  lemma EncodedIsText(c: GateConfig)
    requires EncodeGateConfig(c).Ok?
    ensures EncodeGateConfig(c).value == Text(c)
  {
  }

  lemma CurrentAfter(g: Gate, p: Put)
    requires Inv(g) && Enabled(g, p) && PutLands(g, p)
    ensures Current(Apply(g, p)) == p.c
  {
    assert (g.commits + [Commit(p.actor, p.edit)])[..|g.commits|] == g.commits;
  }

  lemma TextIsCurrent(g: Gate)
    requires Inv(g)
    ensures DecodeGateConfig(g.text) == Some(Current(g)) && Seeded(Current(g))
    ensures Current(g).v == g.start.v && Current(g).enforceFrom == g.start.enforceFrom
  {
    hide Text, DecodeGateConfig;
    StoredIsRead(Current(g));
  }

  lemma VersionsGrow(g: Gate, g': Gate)
    requires Inv(g) && Inv(g') && Grows(g, g')
    ensures g.version <= g'.version && (g.version == g'.version ==> g == g')
  {
    if g.version == g'.version {
      SameVersionSameDocument(g, g');
    }
  }

  /** A put a process may send now it may still send later: a version that was
      behind stays behind. */
  lemma StillEnabled(g: Gate, g': Gate, p: Put)
    requires Inv(g) && Inv(g') && Grows(g, g') && p.etag <= g.version && Enabled(g, p)
    ensures Enabled(g', p)
  {
    hide EncodeGateConfig, Text, BaseSize;
    VersionsGrow(g, g');
  }

  /** The commits made by one process. */
  function By(commits: seq<Commit>, me: nat): seq<Commit>
  {
    if commits == [] then []
    else
      By(commits[..|commits| - 1], me) + if commits[|commits| - 1].actor == me then [commits[|commits| - 1]] else []
  }

  lemma {:induction false} ByAppend(a: seq<Commit>, b: seq<Commit>, me: nat)
    ensures By(a + b, me) == By(a, me) + By(b, me)
  {
    if b == [] {
      assert a + b == a;
    } else {
      ByAppend(a, b[..|b| - 1], me);
      assert (a + b)[..|a + b| - 1] == a + b[..|b| - 1];
    }
  }

  lemma {:induction false} OthersCommit(g: Gate, run: seq<Put>, me: nat)
    requires NotBy(run, me)
    ensures Grows(g, Exec(g, run)) && By(Exec(g, run).commits[|g.commits|..], me) == []
  {
    if run != [] {
      var init, last := run[..|run| - 1], run[|run| - 1];
      OthersCommit(g, init, me);
      var before, after := Exec(g, init).commits, Exec(g, run).commits;
      if PutLands(Exec(g, init), last) {
        assert after[|g.commits|..] == before[|g.commits|..] + [Commit(last.actor, last.edit)];
        ByAppend(before[|g.commits|..], [Commit(last.actor, last.edit)], me);
        assert [Commit(last.actor, last.edit)][..0] == [];
      }
    }
  }

  // ---- The read-modify-write --------------------------------------------------------

  /** Whether a commit among those since `since` is this process carrying out the
      edit, leaving document `c`. */
  ghost predicate Committed(g: Gate, since: nat, me: nat, edit: GateEdit, c: GateConfig)
  {
    exists k :: since <= k < |g.commits| && g.commits[k] == Commit(me, edit) && Replay(g.start, g.commits[..k + 1]) == c
  }

  lemma CommittedLast(g: Gate, since: nat, me: nat, edit: GateEdit)
    requires since < |g.commits| && g.commits[|g.commits| - 1] == Commit(me, edit)
    ensures Committed(g, since, me, edit, Current(g))
  {
    assert g.commits[..|g.commits| - 1 + 1] == g.commits;
  }

  /** A deadline short enough that every document an accepted ruleset leaves can
      carry it. */
  predicate ShortDeadline(edit: GateEdit) { edit.SetDeadline? && edit.until < Power10(12) }

  lemma ShortDeadlineFits(c: GateConfig, edit: GateEdit)
    requires Seeded(c) && ShortDeadline(edit)
    ensures EncodeGateConfig(Edited(c, edit)).Ok?
  {
    hide Text, BaseSize;
    HeadroomExact(c);
    assert Edited(c, edit) == c.(failOpenUntil := edit.until, bindIp := c.bindIp);
  }

  /** Some document stored since `since` cannot carry the edit. */
  ghost predicate TooBigFor(g: Gate, since: nat, edit: GateEdit)
  {
    exists k :: since <= k <= |g.commits| && EncodeGateConfig(Edited(Replay(g.start, g.commits[..k]), edit)).Err?
  }

  lemma NotCarried(g: Gate, g': Gate, since: nat, edit: GateEdit)
    requires since <= |g.commits| && Grows(g, g') && Seeded(Current(g))
    ensures EncodeGateConfig(Edited(Current(g), edit)).Err? ==> TooBigFor(g', since, edit) && !ShortDeadline(edit)
  {
    hide EncodeGateConfig, Seeded;
    assert g'.commits[..|g.commits|] == g.commits;
    if ShortDeadline(edit) {
      ShortDeadlineFits(Current(g), edit);
    }
  }

  /** One read, one edit, one write under the version read. With every call answered
      it fails only when someone else committed meanwhile or the document cannot
      carry the edit. */
  method Attempt(kvs: Kvs, edit: GateEdit)
    returns (r: Result<GateConfig, EdgeStoreError>, hasRead: bool, ghost landed: bool)
    requires kvs.Valid()
    requires edit.SetRules? ==> BaseSize(kvs.gate.start.(rules := edit.rules)) < RULES_WRITE_CEILING
    modifies kvs
    ensures kvs.Valid() && kvs.Since()
    ensures r.Ok? ==> Committed(kvs.gate, |old(kvs.gate).commits|, kvs.me, edit, r.value)
    ensures kvs.Mine(|old(kvs.gate).commits|) == if landed then [Commit(kvs.me, edit)] else []
    ensures r.Ok? ==> landed
    ensures landed && NoReplyLost(kvs.fates, |old(kvs.log)|, |kvs.log|) ==> r.Ok?
    ensures r.Err? && AllAnswered(kvs.fates, |old(kvs.log)|, |kvs.log|) ==>
              |kvs.gate.commits| > |old(kvs.gate).commits| || EncodeGateConfig(Edited(Current(kvs.gate), edit)).Err?
    ensures !hasRead ==> r.Err? && !landed && !AllAnswered(kvs.fates, |old(kvs.log)|, |kvs.log|)
  {
    hide Kvs.Valid, Current, BaseSize, Committed, Seeded, Inv, EncodeGateConfig, Edited, Replay, By, DocAt;
    hasRead, landed := false, false;
    kvs.Held();
    var read := kvs.ReadConfig();
    if read.Err? {
      return Err(EdgeStoreError), hasRead, landed;
    }
    hasRead := true;
    var (c, etag) := read.value;
    ghost var before := kvs.gate;
    kvs.Held();
    var written;
    written, landed := kvs.WriteConfig(etag, Edited(c, edit), edit);
    kvs.MineAdds(|old(kvs.gate).commits|, before);
    if written.Err? {
      kvs.Held();
      VersionsGrow(before, kvs.gate);
      return Err(EdgeStoreError), hasRead, landed;
    }
    CommittedLast(kvs.gate, |old(kvs.gate).commits|, kvs.me, edit);
    r := Ok(Edited(c, edit));
  }

  /** One action's read-modify-write, tried again once from a fresh read when the
      write fails. All it ever commits is its own edit, at most twice, each time to
      the document just before it; a success is one of those commits and returns
      the document it left; and unless a reply was lost, a success committed once
      and an error not at all. With every call answered it fails only when others
      committed twice meanwhile or some document of that time cannot carry the edit,
      which a deadline of at most twelve digits never meets. */
  method EdgeReadModifyWrite(kvs: Kvs, edit: GateEdit) returns (r: Result<GateConfig, EdgeStoreError>)
    requires kvs.Valid()
    requires edit.SetRules? ==> BaseSize(kvs.gate.start.(rules := edit.rules)) < RULES_WRITE_CEILING
    modifies kvs
    ensures kvs.Valid() && kvs.Since()
    ensures r.Ok? ==> Committed(kvs.gate, |old(kvs.gate).commits|, kvs.me, edit, r.value)
    ensures var mine := kvs.Mine(|old(kvs.gate).commits|);
            && |mine| <= 2 && (forall k :: 0 <= k < |mine| ==> mine[k] == Commit(kvs.me, edit))
            && (NoReplyLost(kvs.fates, |old(kvs.log)|, |kvs.log|) ==>
                  |mine| == if r.Ok? then 1 else 0)
    ensures r.Err? && AllAnswered(kvs.fates, |old(kvs.log)|, |kvs.log|) ==>
              |kvs.gate.commits| >= |old(kvs.gate).commits| + 2 || TooBigFor(kvs.gate, |old(kvs.gate).commits|, edit)
    ensures r.Err? && AllAnswered(kvs.fates, |old(kvs.log)|, |kvs.log|) && ShortDeadline(edit) ==>
              |kvs.gate.commits| >= |old(kvs.gate).commits| + 2
  {
    hide Kvs.Valid, Current, BaseSize, Committed, Seeded, NoReplyLost, By, Edited, EncodeGateConfig, ShortDeadline,
         TooBigFor, Inv;
    var hasRead;
    ghost var landed;
    r, hasRead, landed := Attempt(kvs, edit);
    kvs.Held();
    if r.Ok? || !hasRead {
      return;
    }
    ghost var before, mid, first := kvs.gate, |kvs.log|, kvs.Mine(|old(kvs.gate).commits|);
    r, hasRead, landed := Attempt(kvs, edit);
    kvs.Held();
    NotCarried(before, kvs.gate, |old(kvs.gate).commits|, edit);
    NotCarried(kvs.gate, kvs.gate, |old(kvs.gate).commits|, edit);
    kvs.MineAdds(|old(kvs.gate).commits|, before);
    assert kvs.Mine(|old(kvs.gate).commits|) == first + kvs.Mine(|before.commits|);
    if NoReplyLost(kvs.fates, |old(kvs.log)|, |kvs.log|) {
      NoReplyLostEither(kvs.fates, |old(kvs.log)|, mid, |kvs.log|);
    }
    if r.Ok? {
      CommittedLater(kvs.gate, |old(kvs.gate).commits|, |before.commits|, kvs.me, edit, r.value);
    }
  }

  lemma CommittedLater(g: Gate, since: nat, later: nat, me: nat, edit: GateEdit, c: GateConfig)
    requires since <= later && Committed(g, later, me, edit, c)
    ensures Committed(g, since, me, edit, c)
  {
  }
}
