/**
 The witness handler reads, decides and only then writes, without a transaction: between the two
 halves other requests may run. This module states what survives that, what does not, and exactly
 when the sequential guarantees still hold.
 */
module Interleaving {
  import opened Text
  import opened Primitives
  import opened Records
  import opened Ledger
  import opened Platform
  import opened PlatformProofs
  import opened Answers

  /** A witness request that has been admitted but has not written yet; `since` is the length of the log it loaded. */
  datatype Ticket = Ticket(call: Call, registered: bool, since: nat)

  /**
   A revoke request that has been decided but has not written yet: the row it saw and the one it will
   write; `since` is how many rows revocations had written when it loaded.
   */
  datatype Revocation = Revocation(key: Bytes, seen: RevocationState, instant: Bytes, floor: Option<nat>, since: nat)

  function Write(r: Revocation): RevocationState { RevocationState(Some(r.instant), r.floor) }

  datatype Written = Written(key: Bytes, state: RevocationState)

  /** The tables, the requests under way, and as history the rows revocations have written. */
  datatype World = World(p: Tables, inflight: seq<Ticket>, revoking: seq<Revocation>, written: seq<Written>)

  /** Nothing under way. */
  function Quiet(p: Tables): World { World(p, [], [], []) }

  datatype Action =
    | Begin(call: Call)
    | Finish(i: nat)
    | BeginRevoke(key: Bytes, at: Option<Bytes>, epoch: Option<nat>, now: Bytes)
    | FinishRevoke(i: nat)
    | AddDevice(key: Bytes)

  predicate Able(e: Env, w: World, a: Action) {
    match a
    case Begin(call) => LoadedFrom(w.p, call)
    case Finish(i) => i < |w.inflight|
    case BeginRevoke(_, _, _, now) => e.parse(now).Some?
    case FinishRevoke(i) => i < |w.revoking|
    case AddDevice(_) => true
  }

  function Without<T>(s: seq<T>, i: nat): (r: seq<T>)
    requires i < |s|
    ensures |r| == |s| - 1 && forall k :: 0 <= k < |r| ==> r[k] == s[if k < i then k else k + 1]
  {
    s[..i] + s[i + 1..]
  }

  function Act(e: Env, w: World, a: Action): World
    requires Able(e, w, a)
  {
    match a
    case Begin(call) =>
      if Admit(e.crypto, w.p, call).None?
      then w.(inflight := w.inflight + [Ticket(call, Registered(w.p, call.req.devicePub), |w.p.log|)]) else w
    case Finish(i) =>
      var ticket := w.inflight[i];
      w.(p := Complete(e.crypto, w.p, ticket.call, ticket.registered).0, inflight := Without(w.inflight, i))
    case BeginRevoke(key, at, epoch, now) =>
      if key !in w.p.devices then w else
      (match DecideRevoke(e.parse, w.p.devices[key], at, epoch, now)
       case RevokeReject => w
       case RevokeApply(instant, floor) =>
         w.(revoking := w.revoking + [Revocation(key, w.p.devices[key], instant, floor, |w.written|)]))
    case FinishRevoke(i) =>
      var r := w.revoking[i];
      var rest := w.(revoking := Without(w.revoking, i));
      if r.key !in w.p.devices then rest
      else rest.(p := w.p.(devices := w.p.devices[r.key := Write(r)]), written := w.written + [Written(r.key, Write(r))])
    case AddDevice(key) => w.(p := Register(w.p, key))
  }

  predicate Interleaves(e: Env, w: World, actions: seq<Action>, w': World)
    decreases |actions|
  {
    if actions == [] then w == w'
    else Able(e, w, actions[0]) && Interleaves(e, Act(e, w, actions[0]), actions[1..], w')
  }

  /** Finishing at once what was begun is the sequential handler. */
  lemma UninterruptedIsSequential(e: Env, w: World, call: Call)
    requires Able(e, w, Begin(call)) && Admit(e.crypto, w.p, call).None?
    ensures var mid := Act(e, w, Begin(call));
            && Able(e, mid, Finish(|w.inflight|))
            && Act(e, mid, Finish(|w.inflight|)) == w.(p := Witness(e.crypto, w.p, call).0)
  {
    hide Admit, Complete, LoadedFrom;
    var mid := Act(e, w, Begin(call));
    assert Without(mid.inflight, |w.inflight|) == w.inflight;
  }

  /** And so for a revocation. */
  lemma UninterruptedRevoke(e: Env, w: World, key: Bytes, at: Option<Bytes>, epoch: Option<nat>, now: Bytes)
    requires e.parse(now).Some? && key in w.p.devices
    requires DecideRevoke(e.parse, w.p.devices[key], at, epoch, now).RevokeApply?
    ensures var mid := Act(e, w, BeginRevoke(key, at, epoch, now));
            && Able(e, mid, FinishRevoke(|w.revoking|))
            && Act(e, mid, FinishRevoke(|w.revoking|)) ==
               w.(p := Revoke(e.parse, w.p, key, at, epoch, now),
                  written := w.written + [Written(key, Revoke(e.parse, w.p, key, at, epoch, now).devices[key])])
  {
    hide DecideRevoke;
    var mid := Act(e, w, BeginRevoke(key, at, epoch, now));
    assert Without(mid.revoking, |w.revoking|) == w.revoking;
  }

  // ── What survives ──────────────────────────────────────────────────────────

  /** The primary key of the ledger table. */
  predicate Keyed(p: Tables) {
    forall i, j :: 0 <= i < j < |p.log| ==>
      !(p.log[i].devicePub == p.log[j].devicePub && p.log[i].entry.sequence == p.log[j].entry.sequence)
  }

  /** Everything the write half can do to the ledger. */
  lemma CompleteEffect(c: Crypto, p: Tables, call: Call, registered: bool)
    ensures var p', q := Complete(c, p, call, registered).0, call.req;
            var row := Row(q.devicePub, WitnessEntry(q.sequence, q.tip, call.now));
            && p'.devices == p.devices && p.lineage <= p'.lineage
            && (p'.log == p.log ||
                  (&& p'.log == p.log + [row] && Decide(call.loaded, q.sequence, q.tip).Record?
                   && forall i :: 0 <= i < |p.log| ==>
                        !(p.log[i].devicePub == q.devicePub && p.log[i].entry.sequence == q.sequence)))
  {
    hide Decide, RecordLineage, BuildReceipt;
    var q := call.req;
    LineageEffect(c, p, q);
    LineageEffect(c, p.(log := p.log + [Row(q.devicePub, WitnessEntry(q.sequence, q.tip, call.now))]), q);
  }

  lemma ActKeepsKey(e: Env, w: World, a: Action)
    requires Able(e, w, a) && Keyed(w.p)
    ensures Keyed(Act(e, w, a).p) && w.p.log <= Act(e, w, a).p.log
  {
    hide Complete, Admit, LoadedFrom, DecideRevoke;
    if a.Finish? { CompleteEffect(e.crypto, w.p, w.inflight[a.i].call, w.inflight[a.i].registered); }
  }

  /** However requests interleave, rows are only appended and no key ever has two rows at one sequence. */
  lemma {:induction false} InterleavingKeepsKey(e: Env, w: World, actions: seq<Action>, w': World)
    requires Keyed(w.p) && Interleaves(e, w, actions, w')
    ensures Keyed(w'.p) && w.p.log <= w'.p.log
    decreases |actions|
  {
    hide Keyed, Able, Act;
    if actions != [] {
      ActKeepsKey(e, w, actions[0]);
      InterleavingKeepsKey(e, Act(e, w, actions[0]), actions[1..], w');
    }
  }

  lemma {:induction false} KeyedDistinct(log: seq<Row>, key: Bytes)
    requires Keyed(Tables(log, map[], []))
    ensures Distinct(EntriesOf(log, key))
  {
    if log != [] {
      var shorter, last := log[..|log| - 1], log[|log| - 1];
      KeyedDistinct(shorter, key);
      var es := EntriesOf(shorter, key);
      forall i | 0 <= i < |es| && last.devicePub == key ensures es[i].sequence != last.entry.sequence {
        assert es[i] in es;
        EntriesAreRows(shorter, key, es[i]);
      }
    }
  }

  /**
   The primary key backs up the decision against forks: under every interleaving a recorded entry is
   what any later load finds at its sequence, so its tip replays and every other tip is a fork.
   */
  lemma RecordedUnderRaces(e: Env, w: World, actions: seq<Action>, w': World, call: Call, entry: WitnessEntry)
    requires Keyed(w.p) && Interleaves(e, w, actions, w') && LoadedFrom(w'.p, call)
    requires Row(call.req.devicePub, entry) in w.p.log && call.req.sequence == entry.sequence
    ensures var d := Decide(call.loaded, call.req.sequence, call.req.tip);
            if call.req.tip == entry.tip then d.Replay? && d.existing == entry else d == Fork(entry.tip)
  {
    hide Interleaves, Find, MaxSequence, PrevEntry, EntriesOf;
    var key := call.req.devicePub;
    InterleavingKeepsKey(e, w, actions, w');
    var es := EntriesOf(w'.p.log, key);
    KeyedDistinct(w'.p.log, key);
    var i :| 0 <= i < |w.p.log| && w.p.log[i] == Row(key, entry);
    assert w'.p.log[i] == Row(key, entry);
    EntriesAreRows(w'.p.log, key, entry);
    LoadedRows(es, call.loaded);
    FindOrderFree(es, call.loaded, entry.sequence);
    OneRowPerSequence(es, entry, Find(es, entry.sequence).value);
  }

  /** Every request under way was admitted with a signature of its key. */
  predicate Genuine(c: Crypto, w: World) {
    forall i :: 0 <= i < |w.inflight| ==>
      var q := w.inflight[i].call.req; c.verifies(q.devicePub, WitnessBytes(q), q.signature)
  }

  /** `call` was under way at the start or is begun by one of the actions. */
  predicate Comes(w: World, actions: seq<Action>, call: Call) {
    || (exists i :: 0 <= i < |w.inflight| && w.inflight[i].call == call)
    || (exists k :: 0 <= k < |actions| && actions[k] == Begin(call))
  }

  /** Some such request asks for `row` under its key's signature. */
  ghost predicate IsAskedFor(c: Crypto, w: World, actions: seq<Action>, row: Row) {
    exists call :: Comes(w, actions, call) && AsksFor(c, call, row)
  }

  lemma ActIsAskedFor(e: Env, w: World, a: Action)
    requires Able(e, w, a) && Genuine(e.crypto, w)
    ensures var w' := Act(e, w, a);
            && Genuine(e.crypto, w') && w.p.log <= w'.p.log
            && (forall i :: |w.p.log| <= i < |w'.p.log| ==>
                  exists j :: 0 <= j < |w.inflight| && AsksFor(e.crypto, w.inflight[j].call, w'.p.log[i]))
            && forall i :: 0 <= i < |w'.inflight| ==>
                 (exists j :: 0 <= j < |w.inflight| && w.inflight[j].call == w'.inflight[i].call) || a == Begin(w'.inflight[i].call)
  {
    hide Complete, LoadedFrom, DecideRevoke, WitnessBytes, Decide;
    var w' := Act(e, w, a);
    if a.Finish? {
      CompleteEffect(e.crypto, w.p, w.inflight[a.i].call, w.inflight[a.i].registered);
      assert forall k :: 0 <= k < |w'.inflight| ==> w'.inflight[k] == w.inflight[if k < a.i then k else k + 1];
      if |w'.p.log| > |w.p.log| { assert AsksFor(e.crypto, w.inflight[a.i].call, w'.p.log[|w.p.log|]); }
    }
    if a.Begin? && Admit(e.crypto, w.p, a.call).None? { AdmitSigned(e.crypto, w.p, a.call); }
  }

  /** What is let in is signed. */
  lemma AdmitSigned(c: Crypto, p: Tables, call: Call)
    requires Admit(c, p, call).None?
    ensures c.verifies(call.req.devicePub, WitnessBytes(call.req), call.req.signature)
  {
    hide WitnessBytes, Decide;
  }

  /** However requests interleave, each row written was asked for by a request signed with the row's key. */
  lemma {:induction false} RowsAskedForUnderRaces(e: Env, w: World, actions: seq<Action>, w': World)
    requires Interleaves(e, w, actions, w') && Genuine(e.crypto, w)
    ensures w.p.log <= w'.p.log
    ensures forall i :: |w.p.log| <= i < |w'.p.log| ==> IsAskedFor(e.crypto, w, actions, w'.p.log[i])
    decreases |actions|
  {
    hide Able, Act, Genuine, AsksFor, Comes;
    if actions != [] {
      var mid := Act(e, w, actions[0]);
      ActIsAskedFor(e, w, actions[0]);
      RowsAskedForUnderRaces(e, mid, actions[1..], w');
      forall i | |w.p.log| <= i < |w'.p.log| ensures IsAskedFor(e.crypto, w, actions, w'.p.log[i]) {
        if i < |mid.p.log| {
          assert w'.p.log[i] == mid.p.log[i];
          var j :| 0 <= j < |w.inflight| && AsksFor(e.crypto, w.inflight[j].call, mid.p.log[i]);
          assert Comes(w, actions, w.inflight[j].call) by { UnderWay(w, actions, j); }
        } else {
          assert IsAskedFor(e.crypto, mid, actions[1..], w'.p.log[i]);
          var call :| Comes(mid, actions[1..], call) && AsksFor(e.crypto, call, w'.p.log[i]);
          ComesEarlier(e, w, actions, call);
        }
      }
    }
  }

  lemma UnderWay(w: World, actions: seq<Action>, j: nat)
    requires j < |w.inflight|
    ensures Comes(w, actions, w.inflight[j].call)
  {
  }

  lemma ComesEarlier(e: Env, w: World, actions: seq<Action>, call: Call)
    requires actions != [] && Able(e, w, actions[0]) && Genuine(e.crypto, w)
    requires Comes(Act(e, w, actions[0]), actions[1..], call)
    ensures Comes(w, actions, call)
  {
    hide Able, Act, Genuine;
    ActIsAskedFor(e, w, actions[0]);
    if k :| 0 <= k < |actions[1..]| && actions[1..][k] == Begin(call) { assert actions[k + 1] == Begin(call); }
  }

  // ── What does not, and exactly when it does ────────────────────────────────

  /** The ledger of the request's key is below what it will write, as far as it was loaded. */
  ghost predicate BelowUpTo(log: seq<Row>, n: nat, q: WitnessRequest)
    requires n <= |log|
  {
    forall r :: 0 <= r < n && log[r].devicePub == q.devicePub ==> log[r].entry.sequence < q.sequence
  }

  predicate WillRecord(call: Call) { Decide(call.loaded, call.req.sequence, call.req.tip).Record? }

  /** Requests in flight were decided on the log as it was when they loaded it. */
  ghost predicate WellBegun(w: World) {
    forall i :: 0 <= i < |w.inflight| ==>
      var t := w.inflight[i];
      t.since <= |w.p.log| && (WillRecord(t.call) ==> BelowUpTo(w.p.log, t.since, t.call.req))
  }

  lemma BelowMeans(log: seq<Row>, q: WitnessRequest)
    ensures BelowUpTo(log, |log|, q) <==> forall x :: x in EntriesOf(log, q.devicePub) ==> x.sequence < q.sequence
  {
    hide EntriesOf;
    var es := EntriesOf(log, q.devicePub);
    if BelowUpTo(log, |log|, q) {
      forall x | x in es ensures x.sequence < q.sequence {
        EntriesAreRows(log, q.devicePub, x);
        var r :| 0 <= r < |log| && log[r] == Row(q.devicePub, x);
      }
    }
    if forall x :: x in es ==> x.sequence < q.sequence {
      forall r | 0 <= r < |log| && log[r].devicePub == q.devicePub ensures log[r].entry.sequence < q.sequence {
        EntriesAreRows(log, q.devicePub, log[r].entry);
      }
    }
  }

  lemma BeganBelow(p: Tables, call: Call)
    requires Keyed(p) && LoadedFrom(p, call) && WillRecord(call)
    ensures BelowUpTo(p.log, |p.log|, call.req)
  {
    hide EntriesOf, Decide, Keyed;
    var es := EntriesOf(p.log, call.req.devicePub);
    KeyedEntries(p, call.req.devicePub);
    DecideOrderFree(es, call.loaded, call.req.sequence, call.req.tip);
    DecideMeans(es, call.req.sequence, call.req.tip);
    BelowMeans(p.log, call.req);
  }

  lemma KeyedEntries(p: Tables, key: Bytes)
    requires Keyed(p)
    ensures Distinct(EntriesOf(p.log, key))
  {
    KeyedDistinct(p.log, key);
  }

  lemma ActKeepsBegun(e: Env, w: World, a: Action)
    requires Able(e, w, a) && Keyed(w.p) && WellBegun(w)
    ensures WellBegun(Act(e, w, a))
  {
    hide Complete, Admit, LoadedFrom, DecideRevoke, WillRecord, Keyed;
    ActKeepsKey(e, w, a);
    var w' := Act(e, w, a);
    if a.Begin? && WillRecord(a.call) { BeganBelow(w.p, a.call); }
    forall i | 0 <= i < |w'.inflight|
      ensures var t := w'.inflight[i]; t.since <= |w'.p.log| && (WillRecord(t.call) ==> BelowUpTo(w'.p.log, t.since, t.call.req))
    {
      if i < |w.inflight| { assert w.inflight[i].since <= |w.p.log|; }
      if a.Finish? { assert w'.inflight[i] == w.inflight[if i < a.i then i else i + 1]; }
    }
  }

  /** Action `a` writes a row. */
  predicate Inserts(e: Env, w: World, a: Action)
    requires Able(e, w, a)
  {
    a.Finish? && Complete(e.crypto, w.p, w.inflight[a.i].call, w.inflight[a.i].registered).0.log != w.p.log
  }

  /** A row is written above every row of its key written since its request was begun. */
  ghost predicate OnTime(e: Env, w: World, a: Action)
    requires Able(e, w, a)
  {
    Inserts(e, w, a) ==>
      var t := w.inflight[a.i];
      forall r :: t.since <= r < |w.p.log| && w.p.log[r].devicePub == t.call.req.devicePub ==>
        w.p.log[r].entry.sequence < t.call.req.sequence
  }

  ghost predicate AllOnTime(e: Env, w: World, actions: seq<Action>)
    decreases |actions|
  {
    actions == [] ||
    (Able(e, w, actions[0]) && OnTime(e, w, actions[0]) && AllOnTime(e, Act(e, w, actions[0]), actions[1..]))
  }

  lemma AppendedExactly(p: Tables, row: Row)
    requires Ordered(p)
    ensures Ordered(p.(log := p.log + [row])) <==>
            forall x :: x in EntriesOf(p.log, row.devicePub) ==> x.sequence < row.entry.sequence
  {
    hide EntriesOf;
    var p', es := p.(log := p.log + [row]), EntriesOf(p.log, row.devicePub);
    EntriesAppend(p.log, row, row.devicePub);
    if Ordered(p') {
      assert Increasing(EntriesOf(p'.log, row.devicePub));
      forall x | x in es ensures x.sequence < row.entry.sequence {
        var k :| 0 <= k < |es| && es[k] == x;
        assert (es + [row.entry])[k] == x && (es + [row.entry])[|es|] == row.entry;
      }
    }
    if forall x :: x in es ==> x.sequence < row.entry.sequence { AppendedOrdered(p, row); }
  }

  /** One action keeps ledgers ordered exactly when it is on time. */
  lemma ActOrder(e: Env, w: World, a: Action)
    requires Able(e, w, a) && Ordered(w.p) && WellBegun(w)
    ensures Ordered(Act(e, w, a).p) <==> OnTime(e, w, a)
  {
    hide Complete, EntriesOf, Admit, LoadedFrom, DecideRevoke, WillRecord, Ordered;
    var w' := Act(e, w, a);
    if a.Finish? { CompleteEffect(e.crypto, w.p, w.inflight[a.i].call, w.inflight[a.i].registered); }
    if !Inserts(e, w, a) {
      OrderedByLog(w.p, w'.p);
    } else {
      var t := w.inflight[a.i];
      var q := t.call.req;
      var row := Row(q.devicePub, WitnessEntry(q.sequence, q.tip, t.call.now));
      AppendedExactly(w.p, row);
      if Ordered(w'.p) { OrderedByLog(w'.p, w.p.(log := w.p.log + [row])); }
      if Ordered(w.p.(log := w.p.log + [row])) { OrderedByLog(w.p.(log := w.p.log + [row]), w'.p); }
      assert WillRecord(t.call) by { WillRecordIs(t.call); }
      BelowMeans(w.p.log, q);
    }
  }

  lemma WillRecordIs(call: Call)
    ensures WillRecord(call) <==> Decide(call.loaded, call.req.sequence, call.req.tip).Record?
  {
  }

  lemma OrderedPrefix(p: Tables, p': Tables)
    requires p.log <= p'.log && Ordered(p')
    ensures Ordered(p)
  {
    hide EntriesOf;
    forall key ensures Increasing(EntriesOf(p.log, key)) {
      assert Increasing(EntriesOf(p'.log, key));
      EntriesPrefix(p.log, p'.log, key);
    }
  }

  /**
   Over any interleaving from an ordered ledger, the ledger stays ordered if and only if every row was
   written above all rows of its key written since its own request loaded the ledger.
   */
  lemma {:induction false} OrderedExactly(e: Env, w: World, actions: seq<Action>, w': World)
    requires Keyed(w.p) && Ordered(w.p) && WellBegun(w) && Interleaves(e, w, actions, w')
    ensures Ordered(w'.p) <==> AllOnTime(e, w, actions)
    decreases |actions|
  {
    hide Able, Act, Ordered, Keyed, WellBegun, OnTime;
    if actions != [] {
      var mid := Act(e, w, actions[0]);
      ActOrder(e, w, actions[0]);
      ActKeepsKey(e, w, actions[0]);
      ActKeepsBegun(e, w, actions[0]);
      InterleavingKeepsKey(e, mid, actions[1..], w');
      if Ordered(w'.p) { OrderedPrefix(mid.p, w'.p); }
      if Ordered(mid.p) { OrderedExactly(e, mid, actions[1..], w'); }
    }
  }

  /** No request is begun while another one of its key is in flight. */
  predicate OneAtATime(e: Env, w: World, actions: seq<Action>)
    decreases |actions|
  {
    actions == [] ||
    (&& Able(e, w, actions[0])
     && (actions[0].Begin? ==>
           forall i :: 0 <= i < |w.inflight| ==> w.inflight[i].call.req.devicePub != actions[0].call.req.devicePub)
     && OneAtATime(e, Act(e, w, actions[0]), actions[1..]))
  }

  /** Requests in flight are of different keys, and nobody has written under those keys since they loaded. */
  ghost predicate Alone(w: World) {
    && (forall i, j :: 0 <= i < j < |w.inflight| ==> w.inflight[i].call.req.devicePub != w.inflight[j].call.req.devicePub)
    && forall i, r :: 0 <= i < |w.inflight| && w.inflight[i].since <= r < |w.p.log| ==>
         w.p.log[r].devicePub != w.inflight[i].call.req.devicePub
  }

  lemma ActKeepsAlone(e: Env, w: World, a: Action)
    requires Able(e, w, a) && Alone(w)
    requires a.Begin? ==> forall i :: 0 <= i < |w.inflight| ==> w.inflight[i].call.req.devicePub != a.call.req.devicePub
    ensures Alone(Act(e, w, a)) && OnTime(e, w, a)
  {
    hide Complete, Admit, LoadedFrom, DecideRevoke;
    if a.Finish? {
      CompleteEffect(e.crypto, w.p, w.inflight[a.i].call, w.inflight[a.i].registered);
      var w' := Act(e, w, a);
      assert forall k :: 0 <= k < |w'.inflight| ==> w'.inflight[k] == w.inflight[if k < a.i then k else k + 1];
    }
  }

  lemma {:induction false} AloneOnTime(e: Env, w: World, actions: seq<Action>)
    requires Alone(w) && OneAtATime(e, w, actions)
    ensures AllOnTime(e, w, actions)
    decreases |actions|
  {
    hide Able, Act, Alone, OnTime;
    if actions != [] {
      ActKeepsAlone(e, w, actions[0]);
      AloneOnTime(e, Act(e, w, actions[0]), actions[1..]);
    }
  }

  /** One request per key at a time is enough. */
  lemma OneAtATimeOrdered(e: Env, p: Tables, actions: seq<Action>, w': World)
    requires Keyed(p) && Ordered(p) && OneAtATime(e, Quiet(p), actions) && Interleaves(e, Quiet(p), actions, w')
    ensures Ordered(w'.p)
  {
    hide Keyed, Ordered, OneAtATime, AllOnTime, Interleaves;
    AloneOnTime(e, Quiet(p), actions);
    OrderedExactly(e, Quiet(p), actions, w');
  }

  function PlainCall(c: Crypto, secret: Bytes, sequence: nat): Call {
    Call(CreateWitness(c, secret, sequence, "", ""), "", "", [], None)
  }

  lemma PlainCallAdmitted(c: Crypto, secret: Bytes, sequence: nat)
    requires SignatureLaws(c)
    ensures LoadedFrom(EMPTY, PlainCall(c, secret, sequence)) && Admit(c, EMPTY, PlainCall(c, secret, sequence)).None?
  {
    hide WitnessVerifies;
    CreatedWitnessVerifies(c, secret, sequence, "", "", None);
    var q := CreateWitness(c, secret, sequence, "", "");
    assert q == q.(rotation := None);
  }

  lemma PlainCallInserts(c: Crypto, p: Tables, secret: Bytes, sequence: nat, registered: bool)
    requires forall i :: 0 <= i < |p.log| ==> p.log[i].entry.sequence != sequence
    ensures Complete(c, p, PlainCall(c, secret, sequence), registered).0
         == p.(log := p.log + [Row(c.publicOf(secret), WitnessEntry(sequence, "", ""))])
  {
    hide WitnessBytes;
  }

  /**
   Two requests of one key that both load an empty ledger: 5 is written, then 3. The ledger is out of
   order, and the receipt for 5, which named no predecessor, names 3 when it is asked for again.
   */
  lemma RaceBreaksOrder(e: Env, secret: Bytes) returns (actions: seq<Action>, w: World, granted: WitnessReceipt, again: WitnessReceipt)
    requires SignatureLaws(e.crypto)
    ensures Interleaves(e, Quiet(EMPTY), actions, w)
    ensures !Ordered(w.p)
    ensures Complete(e.crypto, EMPTY, PlainCall(e.crypto, secret, 5), false).1 == Granted(granted)
    ensures var call := PlainCall(e.crypto, secret, 5).(loaded := EntriesOf(w.p.log, e.crypto.publicOf(secret)));
            LoadedFrom(w.p, call) && Witness(e.crypto, w.p, call).1 == Granted(again)
    ensures granted.prevSequence == None && again.prevSequence == Some(3)
  {
    hide Admit, Complete, LoadedFrom, PlainCall, Witness, Ordered;
    var c, key := e.crypto, e.crypto.publicOf(secret);
    var high, low := PlainCall(c, secret, 5), PlainCall(c, secret, 3);
    PlainCallAdmitted(c, secret, 5);
    PlainCallAdmitted(c, secret, 3);
    actions := [Begin(high), Begin(low), Finish(0), Finish(0)];
    PlainRequest(c, secret, 5);
    PlainRequest(c, secret, 3);
    var w1 := Act(e, Quiet(EMPTY), actions[0]);
    var w2 := Act(e, w1, actions[1]);
    PlainCallInserts(c, w2.p, secret, 5, false);
    var w3 := Act(e, w2, actions[2]);
    PlainCallInserts(c, w3.p, secret, 3, false);
    w := Act(e, w3, actions[3]);
    assert actions[1..][1..][1..][1..] == [];
    assert Interleaves(e, w3, actions[1..][1..][1..], w);
    assert Interleaves(e, w2, actions[1..][1..], w);
    assert Interleaves(e, w1, actions[1..], w);
    EntriesAppend([], Row(key, WitnessEntry(5, "", "")), key);
    EntriesAppend(w3.p.log, Row(key, WitnessEntry(3, "", "")), key);
    assert EntriesOf(w.p.log, key) == [WitnessEntry(5, "", ""), WitnessEntry(3, "", "")];
    Disordered(w.p, key);
    granted := PlainCallGranted(c, secret, 5);
    again := PlainCallReplayed(c, w.p, secret);
  }

  lemma Disordered(p: Tables, key: Bytes)
    requires EntriesOf(p.log, key) == [WitnessEntry(5, "", ""), WitnessEntry(3, "", "")]
    ensures !Ordered(p)
  {
    assert EntriesOf(p.log, key)[0].sequence > EntriesOf(p.log, key)[1].sequence;
  }

  lemma PlainCallGranted(c: Crypto, secret: Bytes, sequence: nat) returns (r: WitnessReceipt)
    ensures Complete(c, EMPTY, PlainCall(c, secret, sequence), false).1 == Granted(r) && r.prevSequence == None
  {
    hide WitnessBytes;
    r := Complete(c, EMPTY, PlainCall(c, secret, sequence), false).1.receipt;
  }

  lemma PlainCallReplayed(c: Crypto, p: Tables, secret: Bytes) returns (r: WitnessReceipt)
    requires SignatureLaws(c)
    requires EntriesOf(p.log, c.publicOf(secret)) == [WitnessEntry(5, "", ""), WitnessEntry(3, "", "")] && p.lineage == []
    ensures var call := PlainCall(c, secret, 5).(loaded := EntriesOf(p.log, c.publicOf(secret)));
            LoadedFrom(p, call) && Witness(c, p, call).1 == Granted(r) && r.prevSequence == Some(3)
  {
    hide WitnessVerifies, EntriesOf;
    CreatedWitnessVerifies(c, secret, 5, "", "", None);
    var q := CreateWitness(c, secret, 5, "", "");
    assert q == q.(rotation := None);
    var es := [WitnessEntry(5, "", ""), WitnessEntry(3, "", "")];
    assert es[1..] == [WitnessEntry(3, "", "")] && es[1..][1..] == [];
    assert PrevEntry(es[1..], 5) == Some(WitnessEntry(3, "", ""));
    assert Decide(es, 5, "") == Replay(es[0], Some(es[1]));
    r := Witness(c, p, PlainCall(c, secret, 5).(loaded := es)).1.receipt;
  }

  lemma PlainRequest(c: Crypto, secret: Bytes, sequence: nat)
    ensures PlainCall(c, secret, sequence).req.devicePub == c.publicOf(secret)
  {
  }

  /** Some admitted request of `key` is still to be written. */
  predicate Pending(w: World, key: Bytes) {
    exists i :: 0 <= i < |w.inflight| && w.inflight[i].call.req.devicePub == key &&
      Decide(w.inflight[i].call.loaded, w.inflight[i].call.req.sequence, w.inflight[i].call.req.tip).Record?
  }

  lemma RevokedAct(e: Env, w: World, a: Action, key: Bytes)
    requires Able(e, w, a) && Revoked(w.p, key) && !Pending(w, key)
    ensures var w' := Act(e, w, a);
            Revoked(w'.p, key) && !Pending(w', key) && EntriesOf(w'.p.log, key) == EntriesOf(w.p.log, key)
  {
    hide Decide, Complete, LoadedFrom, EntriesOf, WitnessVerifies, DecideRevoke;
    if a.Finish? {
      var call, q := w.inflight[a.i].call, w.inflight[a.i].call.req;
      CompleteEffect(e.crypto, w.p, call, w.inflight[a.i].registered);
      EntriesAppend(w.p.log, Row(q.devicePub, WitnessEntry(q.sequence, q.tip, call.now)), key);
      var w' := Act(e, w, a);
      assert forall k :: 0 <= k < |w'.inflight| ==> w'.inflight[k] == w.inflight[if k < a.i then k else k + 1];
    }
  }

  /** After a revocation only requests admitted before it can still add an entry. */
  lemma {:induction false} RevokedUnderRaces(e: Env, w: World, actions: seq<Action>, w': World, key: Bytes)
    requires Interleaves(e, w, actions, w') && Revoked(w.p, key) && !Pending(w, key)
    ensures EntriesOf(w'.p.log, key) == EntriesOf(w.p.log, key)
    decreases |actions|
  {
    hide Able, Act, Revoked, Pending, EntriesOf;
    if actions != [] {
      RevokedAct(e, w, actions[0], key);
      RevokedUnderRaces(e, Act(e, w, actions[0]), actions[1..], w', key);
    }
  }

  /** An entry a superseded key can still gain: at or below the rotation, or of a request admitted before. */
  ghost predicate MayStillCome(w: World, key: Bytes, r: nat, x: WitnessEntry) {
    x.sequence <= r ||
    exists i :: 0 <= i < |w.inflight| && WillRecord(w.inflight[i].call)
             && w.inflight[i].call.req.devicePub == key && w.inflight[i].call.req.sequence == x.sequence
             && w.inflight[i].call.req.tip == x.tip
  }

  lemma SupersededAct(e: Env, w: World, a: Action, key: Bytes, r: nat)
    requires Able(e, w, a) && SupersededAt(w.p, key, r) && NoLaterRotation(w.p, key, r)
    ensures var w' := Act(e, w, a);
            && w.p.lineage <= w'.p.lineage
            && (forall x :: x in EntriesOf(w'.p.log, key) ==> x in EntriesOf(w.p.log, key) || MayStillCome(w, key, r, x))
            && forall x :: MayStillCome(w', key, r, x) ==> MayStillCome(w, key, r, x)
  {
    hide Decide, Complete, EntriesOf, WitnessVerifies, DecideRevoke, Revoked;
    var w' := Act(e, w, a);
    if a.Finish? {
      var call, q := w.inflight[a.i].call, w.inflight[a.i].call.req;
      CompleteEffect(e.crypto, w.p, call, w.inflight[a.i].registered);
      EntriesAppend(w.p.log, Row(q.devicePub, WitnessEntry(q.sequence, q.tip, call.now)), key);
      assert forall k :: 0 <= k < |w'.inflight| ==> w'.inflight[k] == w.inflight[if k < a.i then k else k + 1];
    }
  }

  /**
   A key superseded at `r`, and nowhere later, gains only entries at or below `r` and those of requests
   that had been admitted before the rotation was recorded.
   */
  lemma {:induction false} SupersededUnderRaces(e: Env, w: World, actions: seq<Action>, w': World, key: Bytes, r: nat)
    requires Interleaves(e, w, actions, w') && SupersededAt(w.p, key, r) && NoLaterRotation(w'.p, key, r)
    ensures w.p.lineage <= w'.p.lineage
    ensures forall x :: x in EntriesOf(w'.p.log, key) ==> x in EntriesOf(w.p.log, key) || MayStillCome(w, key, r, x)
    decreases |actions|
  {
    hide Able, Act, SupersededAt, NoLaterRotation, EntriesOf, MayStillCome;
    if actions != [] {
      var mid := Act(e, w, actions[0]);
      ActLineage(e, w, actions[0]);
      SupersededLater(w.p, mid.p, key, r);
      SupersededUnderRaces(e, mid, actions[1..], w', key, r);
      SupersededLater(w.p, w'.p, key, r);
      SupersededAct(e, w, actions[0], key, r);
    }
  }

  lemma ActLineage(e: Env, w: World, a: Action)
    requires Able(e, w, a)
    ensures w.p.lineage <= Act(e, w, a).p.lineage
  {
    hide Complete, Admit, LoadedFrom, DecideRevoke;
    if a.Finish? { CompleteEffect(e.crypto, w.p, w.inflight[a.i].call, w.inflight[a.i].registered); }
  }

  // ── Revocations in a race ──────────────────────────────────────────────────

  lemma FirstRevocation(parse: Clock, at: Bytes, now: Bytes)
    requires parse(at).Some?
    ensures DecideRevoke(parse, ACTIVE, Some(at), None, now) == RevokeApply(at, None)
  {
  }

  lemma ThreeActions(e: Env, w: World, a: Action, b: Action, c: Action)
    requires Able(e, w, a) && Able(e, Act(e, w, a), b) && Able(e, Act(e, Act(e, w, a), b), c)
    ensures Interleaves(e, w, [a, b, c], Act(e, Act(e, Act(e, w, a), b), c))
  {
    hide Able, Act;
    var w1, w2, w3 := Act(e, w, a), Act(e, Act(e, w, a), b), Act(e, Act(e, Act(e, w, a), b), c);
    assert [a, b, c][1..] == [b, c] && [b, c][1..] == [c] && [c][1..] == [];
    assert Interleaves(e, w2, [c], w3);
    assert Interleaves(e, w1, [b, c], w3);
  }

  /** Two first revocations of one key: the earlier instant is written, then the later one over it. */
  lemma RevokeRaceLoosens(e: Env, key: Bytes, early: Bytes, late: Bytes, now: Bytes)
    returns (actions: seq<Action>, mid: World, w: World)
    requires e.parse(now).Some? && e.parse(early).Some? && e.parse(late).Some?
    requires e.parse(early).value < e.parse(late).value
    ensures Interleaves(e, Quiet(Tables([], map[key := ACTIVE], [])), actions, mid)
    ensures Able(e, mid, FinishRevoke(0)) && w == Act(e, mid, FinishRevoke(0))
    ensures key in mid.p.devices && key in w.p.devices && !Tightened(e.parse, mid.p.devices[key], w.p.devices[key])
  {
    hide DecideRevoke, Complete, Admit, LoadedFrom, Interleaves;
    var w0 := Quiet(Tables([], map[key := ACTIVE], []));
    var a, b, c := BeginRevoke(key, Some(early), None, now), BeginRevoke(key, Some(late), None, now), FinishRevoke(0);
    FirstRevocation(e.parse, early, now);
    FirstRevocation(e.parse, late, now);
    var w1 := Act(e, w0, a);
    var w2 := Act(e, w1, b);
    assert w2.revoking == [Revocation(key, ACTIVE, early, None, 0), Revocation(key, ACTIVE, late, None, 0)];
    actions, mid := [a, b, c], Act(e, w2, c);
    ThreeActions(e, w0, a, b, c);
    assert mid.revoking == [Revocation(key, ACTIVE, late, None, 0)];
    w := Act(e, mid, FinishRevoke(0));
  }

  /** Every key known before is known after, with its revocation no looser. */
  ghost predicate NoneLoosened(e: Env, p: Tables, p': Tables) {
    forall key <- p.devices :: key in p'.devices && Tightened(e.parse, p.devices[key], p'.devices[key])
  }

  /** A revocation tightens every row written for its key since it loaded that key's row. */
  ghost predicate StillTightens(e: Env, w: World, a: Action)
    requires Able(e, w, a)
  {
    a.FinishRevoke? ==>
      var r := w.revoking[a.i];
      forall k :: r.since <= k < |w.written| && w.written[k].key == r.key ==> Tightened(e.parse, w.written[k].state, Write(r))
  }

  /** No action of the interleaving loosens a row. */
  ghost predicate NeverLoosens(e: Env, w: World, actions: seq<Action>)
    decreases |actions|
  {
    actions == [] ||
    (&& Able(e, w, actions[0]) && NoneLoosened(e, w.p, Act(e, w, actions[0]).p)
     && NeverLoosens(e, Act(e, w, actions[0]), actions[1..]))
  }

  ghost predicate AllStillTighten(e: Env, w: World, actions: seq<Action>)
    decreases |actions|
  {
    actions == [] ||
    (Able(e, w, actions[0]) && StillTightens(e, w, actions[0]) && AllStillTighten(e, Act(e, w, actions[0]), actions[1..]))
  }

  /**
   A pending revocation tightens what it saw. The row of its key is what it saw or has been written
   since, and everything written since has been tightened to it.
   */
  ghost predicate Follows(e: Env, p: Tables, written: seq<Written>, r: Revocation) {
    && r.key in p.devices && Tightened(e.parse, r.seen, Write(r)) && e.parse(r.instant).Some?
    && (|| p.devices[r.key] == r.seen
        || exists k :: r.since <= k < |written| && written[k] == Written(r.key, p.devices[r.key]))
    && forall k :: r.since <= k < |written| && written[k].key == r.key ==>
         Tightened(e.parse, written[k].state, p.devices[r.key])
  }

  ghost predicate Tracked(e: Env, w: World) {
    && Dated(e.parse, w.p)
    && forall i :: 0 <= i < |w.revoking| ==>
         w.revoking[i].since <= |w.written| && Follows(e, w.p, w.written, w.revoking[i])
  }

  lemma UnchangedTightens(e: Env, p: Tables)
    requires Dated(e.parse, p)
    ensures NoneLoosened(e, p, p)
  {
    forall key | key in p.devices ensures Tightened(e.parse, p.devices[key], p.devices[key]) {
      TightenedSelf(e.parse, p.devices[key]);
    }
  }

  /** Writing a revocation loosens nothing exactly when it tightens what was written since it loaded. */
  lemma FinishRevokeTightens(e: Env, w: World, i: nat)
    requires i < |w.revoking| && Tracked(e, w)
    ensures NoneLoosened(e, w.p, Act(e, w, FinishRevoke(i)).p) <==> StillTightens(e, w, FinishRevoke(i))
  {
    hide Tightened;
    var r, w' := w.revoking[i], Act(e, w, FinishRevoke(i));
    assert Follows(e, w.p, w.written, r);
    UnchangedTightens(e, w.p);
    if NoneLoosened(e, w.p, w'.p) {
      assert Tightened(e.parse, w.p.devices[r.key], Write(r));
      forall k | r.since <= k < |w.written| && w.written[k].key == r.key
        ensures Tightened(e.parse, w.written[k].state, Write(r))
      {
        TightenedTransitive(e.parse, w.written[k].state, w.p.devices[r.key], Write(r));
      }
    }
  }

  /** A row that follows keeps following when its key's row is tightened by a write. */
  lemma WriteFollows(e: Env, w: World, x: Revocation, r: Revocation)
    requires Follows(e, w.p, w.written, r) && r.since <= |w.written|
    requires x.key in w.p.devices && Tightened(e.parse, w.p.devices[x.key], Write(x)) && e.parse(x.instant).Some?
    ensures Follows(e, w.p.(devices := w.p.devices[x.key := Write(x)]), w.written + [Written(x.key, Write(x))], r)
  {
    hide Tightened;
    var n, after := |w.written|, w.written + [Written(x.key, Write(x))];
    assert forall k :: 0 <= k < n ==> after[k] == w.written[k];
    assert after[n] == Written(x.key, Write(x));
    TightenedSelf(e.parse, Write(x));
    if r.key == x.key {
      forall k | r.since <= k < n && w.written[k].key == r.key ensures Tightened(e.parse, w.written[k].state, Write(x)) {
        TightenedTransitive(e.parse, w.written[k].state, w.p.devices[r.key], Write(x));
      }
    }
  }

  lemma TrackedFinish(e: Env, w: World, i: nat)
    requires i < |w.revoking| && Tracked(e, w) && NoneLoosened(e, w.p, Act(e, w, FinishRevoke(i)).p)
    ensures Tracked(e, Act(e, w, FinishRevoke(i)))
  {
    hide Tightened, Follows;
    var r, w' := w.revoking[i], Act(e, w, FinishRevoke(i));
    FollowsMeans(e, w.p, w.written, r);
    forall k | 0 <= k < |w'.revoking|
      ensures w'.revoking[k].since <= |w'.written| && Follows(e, w'.p, w'.written, w'.revoking[k])
    {
      assert w'.revoking[k] == w.revoking[if k < i then k else k + 1];
      WriteFollows(e, w, r, w'.revoking[k]);
    }
  }

  lemma FollowsMeans(e: Env, p: Tables, written: seq<Written>, r: Revocation)
    requires Follows(e, p, written, r)
    ensures r.key in p.devices && e.parse(r.instant).Some?
  {
  }

  lemma TrackedBegin(e: Env, w: World, key: Bytes, at: Option<Bytes>, epoch: Option<nat>, now: Bytes)
    requires Tracked(e, w) && e.parse(now).Some?
    ensures Tracked(e, Act(e, w, BeginRevoke(key, at, epoch, now)))
  {
    hide DecideRevoke, Tightened;
    if key in w.p.devices { DecideRevokeTightens(e.parse, w.p.devices[key], at, epoch, now); }
  }

  lemma TrackedElse(e: Env, w: World, a: Action)
    requires Able(e, w, a) && Tracked(e, w) && !a.BeginRevoke? && !a.FinishRevoke?
    ensures Tracked(e, Act(e, w, a)) && NoneLoosened(e, w.p, Act(e, w, a).p)
  {
    hide Complete, Admit, LoadedFrom, DecideRevoke, Tightened;
    UnchangedTightens(e, w.p);
    if a.Finish? { CompleteEffect(e.crypto, w.p, w.inflight[a.i].call, w.inflight[a.i].registered); }
  }

  /** One action loosens nothing exactly when it still tightens, and then what is pending stays tracked. */
  lemma ActTightens(e: Env, w: World, a: Action)
    requires Able(e, w, a) && Tracked(e, w)
    ensures NoneLoosened(e, w.p, Act(e, w, a).p) <==> StillTightens(e, w, a)
    ensures NoneLoosened(e, w.p, Act(e, w, a).p) ==> Tracked(e, Act(e, w, a))
  {
    hide Tracked, NoneLoosened;
    match a
    case BeginRevoke(key, at, epoch, now) =>
      TrackedBegin(e, w, key, at, epoch, now);
      TrackedDated(e, w);
      UnchangedTightens(e, w.p);
    case FinishRevoke(i) =>
      FinishRevokeTightens(e, w, i);
      if NoneLoosened(e, w.p, Act(e, w, a).p) { TrackedFinish(e, w, i); }
    case _ => TrackedElse(e, w, a);
  }

  lemma TrackedDated(e: Env, w: World)
    requires Tracked(e, w)
    ensures Dated(e.parse, w.p)
  {
  }

  /**
   Over any interleaving, no action loosens a revocation if and only if every revocation written
   tightens all rows written for its key since it loaded that key's row.
   */
  lemma {:induction false} TightensExactly(e: Env, w: World, actions: seq<Action>, w': World)
    requires Tracked(e, w) && Interleaves(e, w, actions, w')
    ensures NeverLoosens(e, w, actions) <==> AllStillTighten(e, w, actions)
    ensures NeverLoosens(e, w, actions) ==> NoneLoosened(e, w.p, w'.p)
    decreases |actions|
  {
    hide Able, Act, Tracked, NoneLoosened, StillTightens;
    TrackedDated(e, w);
    if actions == [] {
      UnchangedTightens(e, w.p);
    } else {
      var mid := Act(e, w, actions[0]);
      ActTightens(e, w, actions[0]);
      if NoneLoosened(e, w.p, mid.p) {
        TightensExactly(e, mid, actions[1..], w');
        if NeverLoosens(e, w, actions) { LoosenedTransitive(e, w.p, mid.p, w'.p); }
      }
    }
  }

  lemma LoosenedTransitive(e: Env, p: Tables, q: Tables, r: Tables)
    requires NoneLoosened(e, p, q) && NoneLoosened(e, q, r)
    ensures NoneLoosened(e, p, r)
  {
    hide Tightened;
    forall key | key in p.devices ensures key in r.devices && Tightened(e.parse, p.devices[key], r.devices[key]) {
      TightenedTransitive(e.parse, p.devices[key], q.devices[key], r.devices[key]);
    }
  }

  lemma TightenedSelf(parse: Clock, s: RevocationState)
    requires s.revokedAt.Some? ==> parse(s.revokedAt.value).Some?
    ensures Tightened(parse, s, s)
  {
  }

  lemma TightenedTransitive(parse: Clock, a: RevocationState, b: RevocationState, c: RevocationState)
    requires Tightened(parse, a, b) && Tightened(parse, b, c)
    ensures Tightened(parse, a, c)
  {
  }

  /** No revocation is begun while another one of its key is pending. */
  predicate OneRevokeAtATime(e: Env, w: World, actions: seq<Action>)
    decreases |actions|
  {
    actions == [] ||
    (&& Able(e, w, actions[0])
     && (actions[0].BeginRevoke? ==> forall i :: 0 <= i < |w.revoking| ==> w.revoking[i].key != actions[0].key)
     && OneRevokeAtATime(e, Act(e, w, actions[0]), actions[1..]))
  }

  /** Pending revocations are of different keys, and nobody has written those keys' rows since they loaded them. */
  ghost predicate Undisturbed(w: World) {
    && (forall i, j :: 0 <= i < j < |w.revoking| ==> w.revoking[i].key != w.revoking[j].key)
    && forall i, k :: 0 <= i < |w.revoking| && w.revoking[i].since <= k < |w.written| ==>
         w.written[k].key != w.revoking[i].key
  }

  lemma ActKeepsUndisturbed(e: Env, w: World, a: Action)
    requires Able(e, w, a) && Undisturbed(w)
    requires a.BeginRevoke? ==> forall i :: 0 <= i < |w.revoking| ==> w.revoking[i].key != a.key
    ensures Undisturbed(Act(e, w, a)) && StillTightens(e, w, a)
  {
    hide Complete, Admit, LoadedFrom, DecideRevoke, Tightened;
    if a.FinishRevoke? {
      var w' := Act(e, w, a);
      assert forall k :: 0 <= k < |w'.revoking| ==> w'.revoking[k] == w.revoking[if k < a.i then k else k + 1];
    }
  }

  lemma {:induction false} UndisturbedTighten(e: Env, w: World, actions: seq<Action>)
    requires Undisturbed(w) && OneRevokeAtATime(e, w, actions)
    ensures AllStillTighten(e, w, actions)
    decreases |actions|
  {
    hide Able, Act, Undisturbed, StillTightens;
    if actions != [] {
      ActKeepsUndisturbed(e, w, actions[0]);
      UndisturbedTighten(e, Act(e, w, actions[0]), actions[1..]);
    }
  }

  /** One revocation per key at a time is enough for revocations to only tighten, however else requests interleave. */
  lemma OneRevokeTightens(e: Env, w: World, actions: seq<Action>, w': World)
    requires Tracked(e, w) && Undisturbed(w) && OneRevokeAtATime(e, w, actions) && Interleaves(e, w, actions, w')
    ensures NeverLoosens(e, w, actions) && NoneLoosened(e, w.p, w'.p)
  {
    hide Tracked, Undisturbed, OneRevokeAtATime, Interleaves, NeverLoosens, AllStillTighten, NoneLoosened;
    UndisturbedTighten(e, w, actions);
    TightensExactly(e, w, actions, w');
  }
}
