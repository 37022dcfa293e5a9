/**
 What the platform guarantees over every run of requests handled one after the other: an
 append-only, strictly increasing ledger per key whose receipts never change their story, and
 revocation that only tightens.
 */
module PlatformProofs {
  import opened Text
  import opened Primitives
  import opened Records
  import opened Ledger
  import opened Platform

  // ── The ledger of one key ──────────────────────────────────────────────────

  lemma EntriesAppend(log: seq<Row>, row: Row, key: Bytes)
    ensures EntriesOf(log + [row], key) == EntriesOf(log, key) + if row.devicePub == key then [row.entry] else []
  {
    assert (log + [row])[..|log|] == log;
  }

  lemma {:induction false} EntriesAreRows(log: seq<Row>, key: Bytes, e: WitnessEntry)
    ensures e in EntriesOf(log, key) <==> Row(key, e) in log
  {
    if log != [] {
      var last := log[|log| - 1];
      EntriesAreRows(log[..|log| - 1], key, e);
      assert log == log[..|log| - 1] + [last];
    }
  }

  lemma {:induction false} EntriesPrefix(log: seq<Row>, longer: seq<Row>, key: Bytes)
    requires log <= longer
    ensures EntriesOf(log, key) <= EntriesOf(longer, key)
    decreases |longer|
  {
    if log != longer {
      EntriesPrefix(log, longer[..|longer| - 1], key);
    }
  }

  // ── Invariant ──────────────────────────────────────────────────────────────

  /** In every key's ledger sequences strictly increase in insertion order. */
  ghost predicate Ordered(p: Tables) {
    forall key :: Increasing(EntriesOf(p.log, key))
  }

  /** Stored revocation instants are well-formed. */
  predicate Dated(parse: Clock, p: Tables) {
    forall key <- p.devices :: p.devices[key].revokedAt.Some? ==> parse(p.devices[key].revokedAt.value).Some?
  }

  ghost predicate Sound(e: Env, p: Tables) { Ordered(p) && Dated(e.parse, p) }

  lemma EmptySound(e: Env)
    ensures Sound(e, EMPTY)
  {
    forall key ensures Increasing(EntriesOf(EMPTY.log, key)) { }
  }

  /** A load of an ordered ledger decides like the ledger itself. */
  lemma LoadDecides(p: Tables, call: Call)
    requires Ordered(p) && LoadedFrom(p, call)
    ensures Decide(call.loaded, call.req.sequence, call.req.tip) ==
            Decide(EntriesOf(p.log, call.req.devicePub), call.req.sequence, call.req.tip)
  {
    hide Decide;
    var es := EntriesOf(p.log, call.req.devicePub);
    IncreasingIsDistinct(es);
    DecideOrderFree(es, call.loaded, call.req.sequence, call.req.tip);
  }

  lemma LineageEffect(c: Crypto, p: Tables, q: WitnessRequest)
    ensures var p' := RecordLineage(c, p, q).0;
            && p'.log == p.log && p'.devices == p.devices && p.lineage <= p'.lineage
            && (p'.lineage != p.lineage ==>
                  && q.rotation.Some? && LineageVerifies(c, q.rotation.value, q.devicePub, q.sequence, q.tip)
                  && p'.lineage == p.lineage + [Lineage(q.devicePub, q.rotation.value.oldKey, q.rotation.value.sequence)])
  {
    hide LineageVerifies, PredecessorMatches;
  }

  /** Everything a witness request can do to the tables. */
  lemma WitnessEffect(c: Crypto, p: Tables, call: Call)
    requires Ordered(p) && LoadedFrom(p, call)
    ensures var p', q := Witness(c, p, call).0, call.req;
            && p'.devices == p.devices && p.lineage <= p'.lineage
            && (p'.log == p.log ||
                  (&& p'.log == p.log + [Row(q.devicePub, WitnessEntry(q.sequence, q.tip, call.now))]
                   && (forall e :: e in EntriesOf(p.log, q.devicePub) ==> e.sequence < q.sequence)
                   && !Revoked(p, q.devicePub)
                   && (call.rotationSeq.Some? ==> q.sequence <= call.rotationSeq.value)))
  {
    hide Decide, RecordLineage, WitnessVerifies, Revoked, EntriesOf, LoadedFrom;
    var q := call.req;
    LoadDecides(p, call);
    IncreasingIsDistinct(EntriesOf(p.log, q.devicePub));
    DecideMeans(EntriesOf(p.log, q.devicePub), q.sequence, q.tip);
    if Admit(c, p, call).None? {
      LineageEffect(c, p, q);
      LineageEffect(c, p.(log := p.log + [Row(q.devicePub, WitnessEntry(q.sequence, q.tip, call.now))]), q);
    }
  }

  /** The only lineage a witness request can add is that of the verified rotation attached to it. */
  lemma WitnessLineage(c: Crypto, p: Tables, call: Call)
    ensures var p', q := Witness(c, p, call).0, call.req;
            p'.lineage == p.lineage ||
            (&& q.rotation.Some? && LineageVerifies(c, q.rotation.value, q.devicePub, q.sequence, q.tip)
             && p'.lineage == p.lineage + [Lineage(q.devicePub, q.rotation.value.oldKey, q.rotation.value.sequence)])
  {
    hide Decide, RecordLineage, WitnessVerifies, Revoked, LineageVerifies, BuildReceipt;
    var q := call.req;
    LineageEffect(c, p, q);
    LineageEffect(c, p.(log := p.log + [Row(q.devicePub, WitnessEntry(q.sequence, q.tip, call.now))]), q);
  }

  lemma LineageAdded(c: Crypto, p: Tables, q: WitnessRequest)
    requires RecordLineage(c, p, q).0.lineage != p.lineage
    ensures q.rotation.Some? && LineageVerifies(c, q.rotation.value, q.devicePub, q.sequence, q.tip)
    ensures PredecessorMatches(p, q.rotation.value)
    ensures forall i :: 0 <= i < |p.lineage| ==> p.lineage[i].newPub != q.devicePub
  {
    hide LineageVerifies, PredecessorMatches;
  }

  lemma PredecessorMeans(p: Tables, r: RotationRecord, e: WitnessEntry)
    requires Ordered(p) && PredecessorMatches(p, r) && e in EntriesOf(p.log, r.oldKey) && e.sequence + 1 == r.sequence
    ensures e.tip == r.prev
  {
    hide EntriesOf, Find;
    var es := EntriesOf(p.log, r.oldKey);
    IncreasingIsDistinct(es);
    OneRowPerSequence(es, e, Find(es, r.sequence - 1).value);
  }

  /**
   What a recorded lineage row stands for: both keys signed the rotation, it is the witnessed tip and
   installs the requester at the next epoch, it continues the old key's ledger where that has its
   predecessor, and the new key had no lineage before.
   */
  lemma LineageJustified(c: Crypto, p: Tables, call: Call)
    requires Ordered(p) && LoadedFrom(p, call) && Witness(c, p, call).0.lineage != p.lineage
    ensures call.req.rotation.Some?
    ensures var p', q, r := Witness(c, p, call).0, call.req, call.req.rotation.value;
            && c.verifies(r.oldKey, RotationBytes(r), r.sigOld) && c.verifies(q.devicePub, RotationBytes(r), r.sigNew)
            && r.newEpoch == r.oldEpoch + 1 && r.sequence == q.sequence && q.tip == ArchiveId(c.hash(RotationBytes(r)))
            && (forall e :: e in EntriesOf(p'.log, r.oldKey) && e.sequence + 1 == r.sequence ==> e.tip == r.prev)
            && (forall i :: 0 <= i < |p.lineage| ==> p.lineage[i].newPub != q.devicePub)
            && p'.lineage == p.lineage + [Lineage(q.devicePub, r.oldKey, r.sequence)]
  {
    hide Decide, RecordLineage, WitnessVerifies, Revoked, EntriesOf, LoadedFrom, PredecessorMatches, BuildReceipt;
    hide RotationBytes, ArchiveId, Ordered;
    var q, p' := call.req, Witness(c, p, call).0;
    var row := Row(q.devicePub, WitnessEntry(q.sequence, q.tip, call.now));
    var mid := if p'.log == p.log then p else p.(log := p.log + [row]);
    WitnessEffect(c, p, call);
    LineageEffect(c, p, q);
    LineageEffect(c, p.(log := p.log + [row]), q);
    assert RecordLineage(c, mid, q).0 == p' && mid.log == p'.log && mid.lineage == p.lineage;
    LineageAdded(c, mid, q);
    if p'.log != p.log { AppendedOrdered(p, row); }
    forall e | e in EntriesOf(mid.log, q.rotation.value.oldKey) && e.sequence + 1 == q.rotation.value.sequence
      ensures e.tip == q.rotation.value.prev
    {
      PredecessorMeans(mid, q.rotation.value, e);
    }
  }

  lemma AppendedOrdered(p: Tables, row: Row)
    requires Ordered(p) && forall e :: e in EntriesOf(p.log, row.devicePub) ==> e.sequence < row.entry.sequence
    ensures Ordered(p.(log := p.log + [row]))
  {
    forall key ensures Increasing(EntriesOf(p.log + [row], key)) {
      EntriesAppend(p.log, row, key);
      var es := EntriesOf(p.log, key);
      assert Increasing(es);
      assert forall i :: 0 <= i < |es| ==> es[i] in es;
    }
  }

  lemma OrderedByLog(p: Tables, p': Tables)
    requires Ordered(p) && p'.log == p.log
    ensures Ordered(p')
  {
    forall key ensures Increasing(EntriesOf(p'.log, key)) { assert Increasing(EntriesOf(p.log, key)); }
  }

  /** The revocation columns of a key may only tighten. */
  predicate Tightened(parse: Clock, before: RevocationState, after: RevocationState) {
    && (before.revokedAt.Some? ==>
          && after.revokedAt.Some?
          && parse(before.revokedAt.value).Some? && parse(after.revokedAt.value).Some?
          && parse(after.revokedAt.value).value <= parse(before.revokedAt.value).value)
    && (before.minEpoch.Some? ==> after.minEpoch.Some? && before.minEpoch.value <= after.minEpoch.value)
  }

  /** A request is applied exactly when it moves nothing later or lower, and then as asked. */
  lemma DecideRevokeExactly(parse: Clock, s: RevocationState, at: Option<Bytes>, epoch: Option<nat>, now: Bytes)
    requires s.revokedAt.Some? ==> parse(s.revokedAt.value).Some?
    ensures var o := DecideRevoke(parse, s, at, epoch, now);
            && (o.RevokeApply? <==>
                  && (at.Some? ==> parse(at.value).Some?)
                  && (at.Some? && s.revokedAt.Some? ==> parse(at.value).value <= parse(s.revokedAt.value).value)
                  && (epoch.Some? && s.minEpoch.Some? ==> s.minEpoch.value <= epoch.value))
            && (o.RevokeApply? && at.Some? ==> o.revokedAt == at.value)
            && (o.RevokeApply? && epoch.Some? ==> o.minEpoch == epoch)
            && (o.RevokeApply? && epoch.None? ==> o.minEpoch == s.minEpoch)
            && (o.RevokeApply? && at.None? ==> o.revokedAt == if s.revokedAt.Some? then s.revokedAt.value else now)
  {
  }

  lemma DecideRevokeTightens(parse: Clock, s: RevocationState, at: Option<Bytes>, epoch: Option<nat>, now: Bytes)
    requires parse(now).Some? && (s.revokedAt.Some? ==> parse(s.revokedAt.value).Some?)
    ensures var o := DecideRevoke(parse, s, at, epoch, now);
            o.RevokeApply? ==> Tightened(parse, s, RevocationState(Some(o.revokedAt), o.minEpoch)) && parse(o.revokedAt).Some?
  {
  }

  /** What one request may do to the past: nothing. */
  ghost predicate Extends(e: Env, p: Tables, p': Tables) {
    && p.log <= p'.log
    && p.lineage <= p'.lineage
    && (forall key <- p.devices :: key in p'.devices && Tightened(e.parse, p.devices[key], p'.devices[key]))
  }

  lemma WitnessKeeps(e: Env, p: Tables, call: Call)
    requires Sound(e, p) && LoadedFrom(p, call)
    ensures Sound(e, Witness(e.crypto, p, call).0) && Extends(e, p, Witness(e.crypto, p, call).0)
  {
    hide Witness, LoadedFrom, EntriesOf, Ordered, Revoked;
    WitnessEffect(e.crypto, p, call);
    var p', q := Witness(e.crypto, p, call).0, call.req;
    var row := Row(q.devicePub, WitnessEntry(q.sequence, q.tip, call.now));
    if p'.log == p.log {
      OrderedByLog(p, p');
    } else {
      AppendedOrdered(p, row);
      OrderedByLog(p.(log := p.log + [row]), p');
    }
  }

  lemma RevokeKeeps(e: Env, p: Tables, key: Bytes, at: Option<Bytes>, epoch: Option<nat>, now: Bytes)
    requires Sound(e, p) && e.parse(now).Some?
    ensures Sound(e, Revoke(e.parse, p, key, at, epoch, now)) && Extends(e, p, Revoke(e.parse, p, key, at, epoch, now))
  {
    hide DecideRevoke, Ordered;
    var p' := Revoke(e.parse, p, key, at, epoch, now);
    OrderedByLog(p, p');
    if key in p.devices { DecideRevokeTightens(e.parse, p.devices[key], at, epoch, now); }
  }

  lemma StepKeeps(e: Env, p: Tables, ev: Event)
    requires Sound(e, p) && Possible(e, p, ev)
    ensures Sound(e, Step(e, p, ev)) && Extends(e, p, Step(e, p, ev))
  {
    hide Witness, LoadedFrom, Revoke, Ordered;
    match ev
    case WitnessEvent(call) => WitnessKeeps(e, p, call);
    case RevokeEvent(key, at, epoch, now) => RevokeKeeps(e, p, key, at, epoch, now);
    case RegisterEvent(key) => OrderedByLog(p, Step(e, p, ev));
  }

  lemma ExtendsTransitive(e: Env, p: Tables, q: Tables, r: Tables)
    requires Extends(e, p, q) && Extends(e, q, r)
    ensures Extends(e, p, r)
  {
  }

  /**
   Over every run: sequences strictly increase per key, rows and lineage are only appended, and
   revocation only tightens.
   */
  lemma {:induction false} RunKeeps(e: Env, p: Tables, events: seq<Event>, p': Tables)
    requires Sound(e, p) && Runs(e, p, events, p')
    ensures Sound(e, p') && Extends(e, p, p')
    decreases |events|
  {
    hide Step, Possible, Sound, Extends;
    if events == [] {
      ExtendsSelf(e, p);
    } else {
      var mid := Step(e, p, events[0]);
      StepKeeps(e, p, events[0]);
      RunKeeps(e, mid, events[1..], p');
      ExtendsTransitive(e, p, mid, p');
    }
  }

  lemma ExtendsSelf(e: Env, p: Tables)
    requires Sound(e, p)
    ensures Extends(e, p, p)
  {
    hide Ordered;
  }

  // ── Ledger answers never change ────────────────────────────────────────────

  /** The entry recorded just before entry `i` of a ledger. */
  function Before(es: seq<WitnessEntry>, i: nat): Option<WitnessEntry>
    requires i < |es|
  {
    if i == 0 then None else Some(es[i - 1])
  }

  lemma LedgerLater(e: Env, p: Tables, events: seq<Event>, p': Tables, key: Bytes)
    requires Sound(e, p) && Runs(e, p, events, p')
    ensures var es, es' := EntriesOf(p.log, key), EntriesOf(p'.log, key);
            es <= es' && Increasing(es') && Increasing(es)
  {
    hide Runs, EntriesOf, Dated;
    RunKeeps(e, p, events, p');
    EntriesPrefix(p.log, p'.log, key);
  }

  /**
   A recorded pair replays at every later time, whatever was revoked, rotated or recorded since: same
   timestamp, same predecessor as when it was recorded. Any other tip at that sequence is a fork.
   */
  lemma RecordedForever(e: Env, p: Tables, events: seq<Event>, p': Tables, call: Call, i: nat)
    requires Sound(e, p) && Runs(e, p, events, p') && LoadedFrom(p', call)
    requires i < |EntriesOf(p.log, call.req.devicePub)|
    requires call.req.sequence == EntriesOf(p.log, call.req.devicePub)[i].sequence
    ensures var es := EntriesOf(p.log, call.req.devicePub);
            Decide(call.loaded, call.req.sequence, call.req.tip) ==
              if call.req.tip == es[i].tip then Replay(es[i], Before(es, i)) else Fork(es[i].tip)
    ensures (WitnessVerifies(e.crypto, call.req) && call.req.tip == EntriesOf(p.log, call.req.devicePub)[i].tip) ==>
              Admit(e.crypto, p', call).None?
  {
    hide Runs, EntriesOf, LoadedFrom, Revoked, WitnessVerifies, Find, MaxSequence, PrevEntry, Dated;
    var q := call.req;
    var es, es' := EntriesOf(p.log, q.devicePub), EntriesOf(p'.log, q.devicePub);
    RunKeeps(e, p, events, p');
    LedgerLater(e, p, events, p', q.devicePub);
    LoadDecides(p', call);
    assert es'[i] == es[i] && es'[i] in es';
    IncreasingIsDistinct(es');
    OneRowPerSequence(es', es'[i], Find(es', q.sequence).value);
    PrevOfRow(es', i);
  }

  /** A sequence passed over is a rollback at every later time, and is never recorded. */
  lemma SkippedForever(e: Env, p: Tables, events: seq<Event>, p': Tables, call: Call, later: WitnessEntry)
    requires Sound(e, p) && Runs(e, p, events, p') && LoadedFrom(p', call)
    requires later in EntriesOf(p.log, call.req.devicePub) && call.req.sequence < later.sequence
    requires forall x :: x in EntriesOf(p.log, call.req.devicePub) ==> x.sequence != call.req.sequence
    ensures Decide(call.loaded, call.req.sequence, call.req.tip).Rollback?
    ensures forall x :: x in EntriesOf(p'.log, call.req.devicePub) ==> x.sequence != call.req.sequence
  {
    hide Runs, EntriesOf, LoadedFrom, Find, MaxSequence, PrevEntry, Dated;
    var q := call.req;
    var es, es' := EntriesOf(p.log, q.devicePub), EntriesOf(p'.log, q.devicePub);
    RunKeeps(e, p, events, p');
    LedgerLater(e, p, events, p', q.devicePub);
    LoadDecides(p', call);
    var i :| 0 <= i < |es| && es[i] == later;
    forall x | x in es' ensures x.sequence != q.sequence {
      var j :| 0 <= j < |es'| && es'[j] == x;
      if j < |es| { assert es'[j] == es[j]; } else { assert es'[i] == es[i]; }
    }
    assert later in es' by { assert es'[i] == es[i]; }
  }

  /** A receipt's content: entry `i` of the ledger and the entry before it. */
  predicate ReceiptFor(r: WitnessReceipt, es: seq<WitnessEntry>, i: nat) {
    && i < |es|
    && WitnessEntry(r.sequence, r.tip, r.observedAt) == es[i]
    && r.prevSequence == (if i == 0 then None else Some(es[i - 1].sequence))
    && r.prevTip == (if i == 0 then None else Some(es[i - 1].tip))
    && r.prevObservedAt == (if i == 0 then None else Some(es[i - 1].observedAt))
  }

  /** What a granted request answered and wrote, in terms of its decision. */
  lemma GrantedMeans(c: Crypto, p: Tables, call: Call)
    requires Witness(c, p, call).1.Granted?
    ensures var (p', o), q := Witness(c, p, call), call.req;
            var d := Decide(call.loaded, q.sequence, q.tip);
            && (d.Record? || d.Replay?)
            && p'.log == (if d.Record? then p.log + [Row(q.devicePub, WitnessEntry(q.sequence, q.tip, call.now))] else p.log)
            && o.receipt == BuildReceipt(q.devicePub, Registered(p, q.devicePub), q.sequence, q.tip,
                                         if d.Replay? then d.existing.observedAt else call.now, d.prev, call.jti)
  {
    hide Decide, RecordLineage, WitnessVerifies, Revoked, BuildReceipt;
    var q := call.req;
    LineageEffect(c, p, q);
    LineageEffect(c, p.(log := p.log + [Row(q.devicePub, WitnessEntry(q.sequence, q.tip, call.now))]), q);
  }

  /** Every receipt granted describes an entry of its key's ledger and the one recorded just before it. */
  lemma ReceiptLinks(e: Env, p: Tables, call: Call) returns (i: nat)
    requires Sound(e, p) && LoadedFrom(p, call) && Witness(e.crypto, p, call).1.Granted?
    ensures var (p', o) := Witness(e.crypto, p, call);
            o.receipt.devicePub == call.req.devicePub && ReceiptFor(o.receipt, EntriesOf(p'.log, call.req.devicePub), i)
  {
    hide EntriesOf, LoadedFrom, Witness, Find, MaxSequence, PrevEntry, Dated;
    var q := call.req;
    var es := EntriesOf(p.log, q.devicePub);
    LoadDecides(p, call);
    IncreasingIsDistinct(es);
    DecideMeans(es, q.sequence, q.tip);
    GrantedMeans(e.crypto, p, call);
    var d := Decide(es, q.sequence, q.tip);
    if d.Record? {
      EntriesAppend(p.log, Row(q.devicePub, WitnessEntry(q.sequence, q.tip, call.now)), q.devicePub);
      PrevOfNext(es, q.sequence);
      i := |es|;
    } else {
      i :| 0 <= i < |es| && es[i] == d.existing;
      PrevOfRow(es, i);
    }
  }

  /** And goes on describing them, at the same place, at every later time. */
  lemma ReceiptsStayTrue(e: Env, p: Tables, events: seq<Event>, p': Tables, r: WitnessReceipt, key: Bytes, i: nat)
    requires Sound(e, p) && Runs(e, p, events, p') && ReceiptFor(r, EntriesOf(p.log, key), i)
    ensures ReceiptFor(r, EntriesOf(p'.log, key), i)
  {
    hide EntriesOf, Runs, Sound;
    LedgerLater(e, p, events, p', key);
    var es, es' := EntriesOf(p.log, key), EntriesOf(p'.log, key);
    assert es'[i] == es[i] && (i > 0 ==> es'[i - 1] == es[i - 1]);
  }

  lemma ReceiptOfPlace(r: WitnessReceipt, r': WitnessReceipt, es: seq<WitnessEntry>, i: nat, j: nat)
    requires Increasing(es) && ReceiptFor(r, es, i) && ReceiptFor(r', es, j)
    requires r.devicePub == r'.devicePub && r.sequence == r'.sequence
    ensures r' == r.(registered := r'.registered, jti := r'.jti)
  {
    assert i == j by { assert es[i].sequence == es[j].sequence; }
  }

  lemma GrantedSequence(c: Crypto, p: Tables, call: Call)
    requires Witness(c, p, call).1.Granted?
    ensures Witness(c, p, call).1.receipt.sequence == call.req.sequence
  {
    hide Witness, Decide;
    GrantedMeans(c, p, call);
  }

  /**
   A receipt asked for again at any later time says the same: same tip, same timestamp, same
   predecessor; only the id and the registration note are those of the later moment.
   */
  lemma ReplaySameReceipt(e: Env, p: Tables, call: Call, events: seq<Event>, p': Tables, again: Call)
    requires Sound(e, p) && LoadedFrom(p, call) && Witness(e.crypto, p, call).1.Granted?
    requires Runs(e, Witness(e.crypto, p, call).0, events, p')
    requires LoadedFrom(p', again) && Witness(e.crypto, p', again).1.Granted?
    requires again.req.devicePub == call.req.devicePub && again.req.sequence == call.req.sequence
    ensures var r, r' := Witness(e.crypto, p, call).1.receipt, Witness(e.crypto, p', again).1.receipt;
            r' == r.(registered := r'.registered, jti := r'.jti)
  {
    hide Witness, Sound, EntriesOf, LoadedFrom, ReceiptFor, Increasing;
    var p1, p2, key := Witness(e.crypto, p, call).0, Witness(e.crypto, p', again).0, call.req.devicePub;
    var r, r' := Witness(e.crypto, p, call).1.receipt, Witness(e.crypto, p', again).1.receipt;
    WitnessKeeps(e, p, call);
    RunKeeps(e, p1, events, p');
    assert Runs(e, p', [WitnessEvent(again)], p2) by { assert [WitnessEvent(again)][1..] == []; }
    var i := ReceiptLinks(e, p, call);
    ReceiptsStayTrue(e, p1, events, p', r, key, i);
    ReceiptsStayTrue(e, p', [WitnessEvent(again)], p2, r, key, i);
    var j := ReceiptLinks(e, p', again);
    LedgerLater(e, p', [WitnessEvent(again)], p2, key);
    GrantedSequence(e.crypto, p, call);
    GrantedSequence(e.crypto, p', again);
    ReceiptOfPlace(r, r', EntriesOf(p2.log, key), i, j);
  }

  /** A row decided to be recorded violates no primary key. */
  lemma RecordInserts(c: Crypto, p: Tables, call: Call)
    requires Ordered(p) && LoadedFrom(p, call)
    ensures Decide(call.loaded, call.req.sequence, call.req.tip).Record? ==>
      var row := Row(call.req.devicePub, WitnessEntry(call.req.sequence, call.req.tip, call.now));
      InsertRow(p, row) == Some(p.(log := p.log + [row]))
  {
    hide Decide, EntriesOf, LoadedFrom;
    var es := EntriesOf(p.log, call.req.devicePub);
    LoadDecides(p, call);
    IncreasingIsDistinct(es);
    DecideMeans(es, call.req.sequence, call.req.tip);
    forall k | 0 <= k < |p.log| && p.log[k].devicePub == call.req.devicePub ensures p.log[k].entry in es {
      EntriesAreRows(p.log, call.req.devicePub, p.log[k].entry);
    }
  }

  // ── Refused, and recorded all the same ─────────────────────────────────────

  lemma FindBelow(es: seq<WitnessEntry>, e: WitnessEntry, sequence: nat)
    requires e.sequence != sequence
    ensures Find(es + [e], sequence) == Find(es, sequence)
  {
    if es == [] {
      assert es + [e] == [e];
    } else {
      assert (es + [e])[1..] == es[1..] + [e];
      FindBelow(es[1..], e, sequence);
    }
  }

  /** The row a rotation's witness adds does not decide whether the rotation continues the old key's ledger. */
  lemma OwnRowNoPredecessor(p: Tables, row: Row, r: RotationRecord)
    requires row.entry.sequence == r.sequence
    ensures PredecessorMatches(p.(log := p.log + [row]), r) <==> PredecessorMatches(p, r)
  {
    hide EntriesOf, Find;
    EntriesAppend(p.log, row, r.oldKey);
    if r.sequence > 0 && row.devicePub == r.oldKey { FindBelow(EntriesOf(p.log, r.oldKey), row.entry, r.sequence - 1); }
    assert EntriesOf(p.log, r.oldKey) + [] == EntriesOf(p.log, r.oldKey);
  }

  /** The rotation attached to a request, if any, would pass both checks on the tables as they are. */
  predicate RotationPasses(c: Crypto, p: Tables, q: WitnessRequest) {
    q.rotation.Some? ==>
      LineageVerifies(c, q.rotation.value, q.devicePub, q.sequence, q.tip) && PredecessorMatches(p, q.rotation.value)
  }

  /**
   A refused request usually records nothing. It does record its tip exactly when it was admitted as a
   new one and carries a rotation that does not pass: the row is written before the rotation is looked at.
   */
  lemma RefusedYetRecorded(c: Crypto, p: Tables, call: Call)
    requires Ordered(p) && LoadedFrom(p, call)
    ensures var (p', o), q := Witness(c, p, call), call.req;
            && (o.Refused? && p'.log != p.log <==>
                  && Admit(c, p, call).None? && Decide(call.loaded, q.sequence, q.tip).Record?
                  && !RotationPasses(c, p, q))
            && (p'.log != p.log ==> p'.log == p.log + [Row(q.devicePub, WitnessEntry(q.sequence, q.tip, call.now))])
  {
    hide Decide, LineageVerifies, PredecessorMatches, WitnessVerifies, Revoked, BuildReceipt, EntriesOf, LoadedFrom, InsertRow;
    var q := call.req;
    var row := Row(q.devicePub, WitnessEntry(q.sequence, q.tip, call.now));
    RecordInserts(c, p, call);
    if q.rotation.Some? && LineageVerifies(c, q.rotation.value, q.devicePub, q.sequence, q.tip) {
      LineageSequence(c, q);
      OwnRowNoPredecessor(p, row, q.rotation.value);
    }
  }

  lemma LineageSequence(c: Crypto, q: WitnessRequest)
    requires q.rotation.Some? && LineageVerifies(c, q.rotation.value, q.devicePub, q.sequence, q.tip)
    ensures q.rotation.value.sequence == q.sequence
  {
  }

  /** A request for `sequence` with a rotation attached that is not its tip. */
  function MismatchedCall(c: Crypto, secret: Bytes, newSecret: Bytes, sequence: nat): Call {
    var r := CreateRotation(c, secret, 0, newSecret, "", sequence, "", "");
    Call(CreateWitness(c, secret, sequence, "", "").(rotation := Some(r)), "", "", [], None)
  }

  /** From empty tables, one request: refused for its rotation, and in the ledger. */
  lemma RefusedRotationRecorded(e: Env, secret: Bytes, newSecret: Bytes, sequence: nat) returns (call: Call, p: Tables)
    requires SignatureLaws(e.crypto)
    ensures Runs(e, EMPTY, [WitnessEvent(call)], p)
    ensures Witness(e.crypto, EMPTY, call).1 == Refused(BadRotation)
    ensures p.log == [Row(e.crypto.publicOf(secret), WitnessEntry(sequence, "", ""))]
  {
    hide RotationVerifies, RotationBytes, WitnessBytes, BuildReceipt;
    var c := e.crypto;
    call := MismatchedCall(c, secret, newSecret, sequence);
    CreatedWitnessVerifies(c, secret, sequence, "", "", call.req.rotation);
    p := Step(e, EMPTY, WitnessEvent(call));
    assert [WitnessEvent(call)][1..] == [];
    assert |ArchiveId(c.hash(RotationBytes(call.req.rotation.value)))| >= 3;
  }

  // ── Revocation and supersession ────────────────────────────────────────────

  /** Once revoked, always revoked from an instant no later; a refused epoch stays refused. */
  lemma RevocationOnlyTightens(e: Env, p: Tables, events: seq<Event>, p': Tables, key: Bytes, epoch: nat)
    requires Sound(e, p) && Runs(e, p, events, p') && key in p.devices
    ensures key in p'.devices && Tightened(e.parse, p.devices[key], p'.devices[key])
    ensures Revoked(p, key) ==> Revoked(p', key)
    ensures !EpochAllowed(p.devices[key].minEpoch, epoch) ==> !EpochAllowed(p'.devices[key].minEpoch, epoch)
  {
    hide Runs, Sound;
    RunKeeps(e, p, events, p');
  }

  /** A revoked key gains no ledger entry. */
  lemma {:induction false} RevokedGainsNothing(e: Env, p: Tables, events: seq<Event>, p': Tables, key: Bytes)
    requires Sound(e, p) && Runs(e, p, events, p') && Revoked(p, key)
    ensures EntriesOf(p'.log, key) == EntriesOf(p.log, key)
    decreases |events|
  {
    hide Step, Possible, Sound, EntriesOf, Revoked;
    if events != [] {
      var mid := Step(e, p, events[0]);
      StepKeeps(e, p, events[0]);
      StaysRevoked(e, p, mid, key);
      RevokedStep(e, p, events[0], key);
      RevokedGainsNothing(e, mid, events[1..], p', key);
    }
  }

  lemma StaysRevoked(e: Env, p: Tables, p': Tables, key: Bytes)
    requires Extends(e, p, p') && Revoked(p, key)
    ensures Revoked(p', key)
  {
  }

  lemma RevokedStep(e: Env, p: Tables, ev: Event, key: Bytes)
    requires Sound(e, p) && Possible(e, p, ev) && Revoked(p, key)
    ensures EntriesOf(Step(e, p, ev).log, key) == EntriesOf(p.log, key)
  {
    hide Witness, LoadedFrom, EntriesOf, Revoked, Dated;
    if ev.WitnessEvent? {
      var call, q := ev.call, ev.call.req;
      WitnessEffect(e.crypto, p, call);
      EntriesAppend(p.log, Row(q.devicePub, WitnessEntry(q.sequence, q.tip, call.now)), key);
    }
  }

  /** Every lineage row away from `key` is at or below `r`. */
  predicate NoLaterRotation(p: Tables, key: Bytes, r: nat) {
    forall i :: 0 <= i < |p.lineage| && p.lineage[i].oldPub == key ==> p.lineage[i].rotationSeq <= r
  }

  lemma SupersededStep(e: Env, p: Tables, ev: Event, key: Bytes, r: nat)
    requires Sound(e, p) && Possible(e, p, ev) && SupersededAt(p, key, r) && NoLaterRotation(p, key, r)
    ensures var es, es' := EntriesOf(p.log, key), EntriesOf(Step(e, p, ev).log, key);
            es <= es' && forall i :: |es| <= i < |es'| ==> es'[i].sequence <= r
  {
    hide Witness, EntriesOf, Revoked, Dated;
    if ev.WitnessEvent? {
      var call, q := ev.call, ev.call.req;
      WitnessEffect(e.crypto, p, call);
      EntriesAppend(p.log, Row(q.devicePub, WitnessEntry(q.sequence, q.tip, call.now)), key);
    }
  }

  lemma SupersededLater(p: Tables, p': Tables, key: Bytes, r: nat)
    requires p.lineage <= p'.lineage && SupersededAt(p, key, r)
    ensures SupersededAt(p', key, r)
    ensures NoLaterRotation(p', key, r) ==> NoLaterRotation(p, key, r)
  {
    var i :| 0 <= i < |p.lineage| && p.lineage[i].oldPub == key && p.lineage[i].rotationSeq == r;
    assert p'.lineage[i] == p.lineage[i];
    if NoLaterRotation(p', key, r) {
      forall j | 0 <= j < |p.lineage| && p.lineage[j].oldPub == key ensures p.lineage[j].rotationSeq <= r {
        assert p'.lineage[j] == p.lineage[j];
      }
    }
  }

  /** A key superseded at `r`, and nowhere later, gains no entry above `r`. */
  lemma {:induction false} SupersededGainsNothingAbove(e: Env, p: Tables, events: seq<Event>, p': Tables, key: Bytes, r: nat)
    requires Sound(e, p) && Runs(e, p, events, p') && SupersededAt(p, key, r) && NoLaterRotation(p', key, r)
    ensures var es, es' := EntriesOf(p.log, key), EntriesOf(p'.log, key);
            es <= es' && forall i :: |es| <= i < |es'| ==> es'[i].sequence <= r
    decreases |events|
  {
    hide Step, Possible, Sound, EntriesOf, SupersededAt, NoLaterRotation;
    if events != [] {
      var mid := Step(e, p, events[0]);
      StepKeeps(e, p, events[0]);
      RunKeeps(e, mid, events[1..], p');
      SupersededLater(p, mid, key, r);
      SupersededLater(mid, p', key, r);
      SupersededStep(e, p, events[0], key, r);
      SupersededGainsNothingAbove(e, mid, events[1..], p', key, r);
    }
  }

  /** No request under `key`, whatever row the database returns, adds an entry above `r`. */
  ghost predicate ClosedAbove(c: Crypto, p: Tables, key: Bytes, r: nat) {
    forall call: Call :: LoadedFrom(p, call) && call.req.devicePub == key && call.req.sequence > r
      ==> Witness(c, p, call).0.log == p.log
  }

  /** The condition: revoked, or every rotation away from the key is at or below `r` or already overtaken. */
  predicate RotationsOvertaken(p: Tables, key: Bytes, r: nat) {
    Revoked(p, key) ||
    forall i :: 0 <= i < |p.lineage| && p.lineage[i].oldPub == key && p.lineage[i].rotationSeq > r ==>
      exists j :: 0 <= j < |EntriesOf(p.log, key)| && EntriesOf(p.log, key)[j].sequence >= p.lineage[i].rotationSeq
  }

  lemma ReopeningCall(c: Crypto, p: Tables, secret: Bytes, i: nat) returns (call: Call)
    requires SignatureLaws(c) && Ordered(p) && i < |p.lineage|
    requires p.lineage[i].oldPub == c.publicOf(secret) && !Revoked(p, c.publicOf(secret))
    requires forall e :: e in EntriesOf(p.log, c.publicOf(secret)) ==> e.sequence < p.lineage[i].rotationSeq
    ensures LoadedFrom(p, call) && call.req.devicePub == c.publicOf(secret)
    ensures call.req.sequence == p.lineage[i].rotationSeq
    ensures |Witness(c, p, call).0.log| == |p.log| + 1
  {
    hide EntriesOf, Find, MaxSequence, PrevEntry, WitnessVerifies, RecordLineage, Revoked;
    var key, seq_ := c.publicOf(secret), p.lineage[i].rotationSeq;
    var es := EntriesOf(p.log, key);
    call := Call(CreateWitness(c, secret, seq_, "", ""), "", "", es, Some(seq_));
    assert SupersededAt(p, key, seq_);
    CreatedWitnessVerifies(c, secret, seq_, "", "", None);
    assert call.req == call.req.(rotation := None);
    IncreasingIsDistinct(es);
    DecideMeans(es, seq_, "");
    var row := Row(key, WitnessEntry(seq_, "", ""));
    forall k | 0 <= k < |p.log| ensures !(p.log[k].devicePub == key && p.log[k].entry.sequence == seq_) {
      EntriesAreRows(p.log, key, p.log[k].entry);
    }
    LineageEffect(c, p.(log := p.log + [row]), call.req);
  }

  /**
   The documented rule, exactly: a key superseded at `r` is closed above `r` if and only if it is
   revoked or no later rotation away from it is still ahead of its ledger. The lookup returns one
   arbitrary row per old key, so a second, later rotation reopens the ledger up to its own sequence.
   */
  lemma SupersededExactly(e: Env, p: Tables, secret: Bytes, r: nat)
    requires SignatureLaws(e.crypto) && Sound(e, p) && SupersededAt(p, e.crypto.publicOf(secret), r)
    ensures ClosedAbove(e.crypto, p, e.crypto.publicOf(secret), r) <==> RotationsOvertaken(p, e.crypto.publicOf(secret), r)
  {
    hide Witness, EntriesOf, Revoked, Dated, Increasing;
    var c, key := e.crypto, e.crypto.publicOf(secret);
    var es := EntriesOf(p.log, key);
    if RotationsOvertaken(p, key, r) {
      forall call: Call | LoadedFrom(p, call) && call.req.devicePub == key && call.req.sequence > r
        ensures Witness(c, p, call).0.log == p.log
      {
        OvertakenStays(c, p, call, r);
      }
    } else {
      var i :| 0 <= i < |p.lineage| && p.lineage[i].oldPub == key && p.lineage[i].rotationSeq > r &&
               forall j :: 0 <= j < |es| ==> es[j].sequence < p.lineage[i].rotationSeq;
      var call := ReopeningCall(c, p, secret, i);
      assert Witness(c, p, call).0.log != p.log;
    }
  }

  lemma OvertakenStays(c: Crypto, p: Tables, call: Call, r: nat)
    requires Ordered(p) && LoadedFrom(p, call) && call.req.sequence > r
    requires SupersededAt(p, call.req.devicePub, r) && RotationsOvertaken(p, call.req.devicePub, r)
    ensures Witness(c, p, call).0.log == p.log
  {
    hide Witness, EntriesOf, Revoked, Increasing;
    WitnessEffect(c, p, call);
    var es := EntriesOf(p.log, call.req.devicePub);
    assert forall j :: 0 <= j < |es| ==> es[j] in es;
  }

  /** Witnessing, under its new key, a rotation the old key signed at position `sequence`. */
  function RotationCall(c: Crypto, oldSecret: Bytes, newSecret: Bytes, sequence: nat): Call {
    var r := CreateRotation(c, oldSecret, 0, newSecret, "", sequence, "", "");
    var q := CreateWitness(c, newSecret, sequence, ArchiveId(c.hash(RotationBytes(r))), "");
    Call(q.(rotation := Some(r)), "", "", [], None)
  }

  /** Neither key appears in the ledger, and the new one nowhere. */
  predicate Unseen(p: Tables, oldPub: Bytes, newPub: Bytes) {
    && EntriesOf(p.log, oldPub) == [] && EntriesOf(p.log, newPub) == [] && oldPub != newPub
    && !Revoked(p, newPub)
    && forall i :: 0 <= i < |p.lineage| ==> p.lineage[i].oldPub != newPub && p.lineage[i].newPub != newPub
  }

  lemma RotationCallLands(c: Crypto, p: Tables, oldSecret: Bytes, newSecret: Bytes, sequence: nat)
    requires SignatureLaws(c) && Unseen(p, c.publicOf(oldSecret), c.publicOf(newSecret))
    ensures var call := RotationCall(c, oldSecret, newSecret, sequence);
            var row := Row(c.publicOf(newSecret), WitnessEntry(sequence, call.req.tip, ""));
            && LoadedFrom(p, call)
            && Witness(c, p, call).0 ==
               p.(log := p.log + [row], lineage := p.lineage + [Lineage(c.publicOf(newSecret), c.publicOf(oldSecret), sequence)])
  {
    hide EntriesOf, WitnessVerifies, RotationVerifies, RotationBytes, Revoked, ArchiveId, BuildReceipt;
    var call := RotationCall(c, oldSecret, newSecret, sequence);
    var q, r := call.req, call.req.rotation.value;
    CreatedRotationVerifies(c, oldSecret, 0, newSecret, "", sequence, "", "");
    CreatedWitnessVerifies(c, newSecret, sequence, q.tip, "", Some(r));
    var row := Row(c.publicOf(newSecret), WitnessEntry(sequence, q.tip, ""));
    forall k | 0 <= k < |p.log| ensures p.log[k].devicePub != q.devicePub {
      EntriesAreRows(p.log, q.devicePub, p.log[k].entry);
    }
    EntriesAppend(p.log, row, r.oldKey);
  }

  predicate ThreeKeys(c: Crypto, a: Bytes, b: Bytes, d: Bytes) {
    c.publicOf(a) != c.publicOf(b) && c.publicOf(a) != c.publicOf(d) && c.publicOf(b) != c.publicOf(d)
  }

  lemma RotationStep(e: Env, p: Tables, oldSecret: Bytes, newSecret: Bytes, sequence: nat)
    returns (ev: Event, q: Tables)
    requires SignatureLaws(e.crypto) && Unseen(p, e.crypto.publicOf(oldSecret), e.crypto.publicOf(newSecret))
    ensures Possible(e, p, ev) && q == Step(e, p, ev) && q.devices == p.devices
    ensures q.lineage == p.lineage + [Lineage(e.crypto.publicOf(newSecret), e.crypto.publicOf(oldSecret), sequence)]
    ensures forall key :: key != e.crypto.publicOf(newSecret) ==> EntriesOf(q.log, key) == EntriesOf(p.log, key)
  {
    hide Witness, RotationCall, LoadedFrom, SignatureLaws, Unseen, EntriesOf;
    var c := e.crypto;
    ev := WitnessEvent(RotationCall(c, oldSecret, newSecret, sequence));
    q := Step(e, p, ev);
    RotationCallLands(c, p, oldSecret, newSecret, sequence);
    forall key | key != c.publicOf(newSecret) ensures EntriesOf(q.log, key) == EntriesOf(p.log, key) {
      EntriesAppend(p.log, q.log[|p.log|], key);
    }
  }

  lemma TwoSteps(e: Env, p: Tables, a: Event, b: Event)
    requires Possible(e, p, a) && Possible(e, Step(e, p, a), b)
    ensures Runs(e, p, [a, b], Step(e, Step(e, p, a), b))
  {
    hide Possible, Step;
    assert [a, b][1..] == [b] && [b][1..] == [];
    assert Runs(e, Step(e, p, a), [b], Step(e, Step(e, p, a), b));
  }

  /** Two rotations away from one key, each witnessed under its new key, starting from empty tables. */
  lemma TwoRotations(e: Env, oldSecret: Bytes, first: Bytes, second: Bytes) returns (events: seq<Event>, p: Tables)
    requires SignatureLaws(e.crypto) && ThreeKeys(e.crypto, oldSecret, first, second)
    ensures Runs(e, EMPTY, events, p)
    ensures EntriesOf(p.log, e.crypto.publicOf(oldSecret)) == [] && p.devices == map[]
    ensures p.lineage == [Lineage(e.crypto.publicOf(first), e.crypto.publicOf(oldSecret), 3),
                          Lineage(e.crypto.publicOf(second), e.crypto.publicOf(oldSecret), 5)]
  {
    hide Possible, Step, Runs, SignatureLaws;
    var a, mid := RotationStep(e, EMPTY, oldSecret, first, 3);
    var b;
    b, p := RotationStep(e, mid, oldSecret, second, 5);
    events := [a, b];
    TwoSteps(e, EMPTY, a, b);
  }

  /**
   A run after which a key that rotated away at 3 is open again above 3: the key also signed a
   second rotation, at 5, and the lookup may return that one.
   */
  lemma SecondRotationReopens(e: Env, oldSecret: Bytes, first: Bytes, second: Bytes) returns (events: seq<Event>, p: Tables)
    requires SignatureLaws(e.crypto) && ThreeKeys(e.crypto, oldSecret, first, second)
    ensures Runs(e, EMPTY, events, p)
    ensures SupersededAt(p, e.crypto.publicOf(oldSecret), 3)
    ensures !ClosedAbove(e.crypto, p, e.crypto.publicOf(oldSecret), 3)
  {
    hide Witness, Runs, Sound, ClosedAbove, SignatureLaws;
    events, p := TwoRotations(e, oldSecret, first, second);
    EmptySound(e);
    RunKeeps(e, EMPTY, events, p);
    assert p.lineage[0].oldPub == e.crypto.publicOf(oldSecret) && p.lineage[0].rotationSeq == 3;
    assert p.lineage[1].oldPub == e.crypto.publicOf(oldSecret) && p.lineage[1].rotationSeq == 5;
    SupersededExactly(e, p, oldSecret, 3);
  }
}
