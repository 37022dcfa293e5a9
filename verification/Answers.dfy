/**
 The witness handler's answers told from the request and the tables: which refusal is given when, what
 is written, and that nothing gets in without the signature of its key.
 */
module Answers {
  import opened Text
  import opened Primitives
  import opened Records
  import opened Ledger
  import opened Platform
  import opened PlatformProofs

  // ── Signatures ─────────────────────────────────────────────────────────────

  /** A request is turned away for its signature, and then changes nothing, exactly when that does not verify. */
  lemma UnsignedRefused(c: Crypto, p: Tables, call: Call)
    ensures var q := call.req;
            !c.verifies(q.devicePub, WitnessBytes(q), q.signature) <==> Witness(c, p, call) == (p, Refused(BadSignature))
  {
    hide WitnessBytes, Decide, RecordLineage, BuildReceipt, InsertRow, Revoked;
    var q := call.req;
    LineageRefusals(c, p, q);
    LineageRefusals(c, p.(log := p.log + [Row(q.devicePub, WitnessEntry(q.sequence, q.tip, call.now))]), q);
    InsertMeans(p, Row(q.devicePub, WitnessEntry(q.sequence, q.tip, call.now)));
  }

  lemma LineageRefusals(c: Crypto, p: Tables, q: WitnessRequest)
    ensures RecordLineage(c, p, q).1 in {None, Some(BadRotation), Some(WrongPredecessor)}
  {
    hide LineageVerifies, PredecessorMatches;
  }

  lemma InsertMeans(p: Tables, row: Row)
    ensures InsertRow(p, row) in {None, Some(p.(log := p.log + [row]))}
  {
  }

  /** The request of `call` asks for `row` and is signed with the row's key. */
  predicate AsksFor(c: Crypto, call: Call, row: Row) {
    && row == Row(call.req.devicePub, WitnessEntry(call.req.sequence, call.req.tip, call.now))
    && c.verifies(row.devicePub, WitnessBytes(call.req), call.req.signature)
  }

  lemma WitnessRow(c: Crypto, p: Tables, call: Call)
    ensures var p' := Witness(c, p, call).0;
            var row := Row(call.req.devicePub, WitnessEntry(call.req.sequence, call.req.tip, call.now));
            p'.log == p.log || (p'.log == p.log + [row] && AsksFor(c, call, row))
  {
    hide WitnessBytes, Decide, RecordLineage, BuildReceipt, InsertRow, Revoked;
    var q := call.req;
    UnsignedRefused(c, p, call);
    LineageEffect(c, p, q);
    LineageEffect(c, p.(log := p.log + [Row(q.devicePub, WitnessEntry(q.sequence, q.tip, call.now))]), q);
    InsertMeans(p, Row(q.devicePub, WitnessEntry(q.sequence, q.tip, call.now)));
  }

  /** Over every run, each row added was asked for by a request of the run signed with the row's key. */
  lemma {:induction false} RowsAreAskedFor(e: Env, p: Tables, events: seq<Event>, p': Tables)
    requires Runs(e, p, events, p')
    ensures p.log <= p'.log
    ensures forall i :: |p.log| <= i < |p'.log| ==>
              exists k :: 0 <= k < |events| && events[k].WitnessEvent? && AsksFor(e.crypto, events[k].call, p'.log[i])
    decreases |events|
  {
    hide Possible, Witness, Revoke, AsksFor;
    if events != [] {
      var ev, mid := events[0], Step(e, p, events[0]);
      if ev.WitnessEvent? { WitnessRow(e.crypto, p, ev.call); }
      if ev.RevokeEvent? { RevokeLog(e.parse, p, ev); }
      RowsAreAskedFor(e, mid, events[1..], p');
      forall i | |p.log| <= i < |p'.log|
        ensures exists k :: 0 <= k < |events| && events[k].WitnessEvent? && AsksFor(e.crypto, events[k].call, p'.log[i])
      {
        if i < |mid.log| {
          assert p'.log[i] == mid.log[i];
        } else {
          var k :| 0 <= k < |events[1..]| && events[1..][k].WitnessEvent? && AsksFor(e.crypto, events[1..][k].call, p'.log[i]);
          assert events[k + 1] == events[1..][k];
        }
      }
    }
  }

  lemma RevokeLog(parse: Clock, p: Tables, ev: Event)
    requires ev.RevokeEvent?
    ensures Revoke(parse, p, ev.key, ev.at, ev.epoch, ev.now).log == p.log
  {
  }

  // ── The whole answer ───────────────────────────────────────────────────────

  /** The request is for something beyond all of its key's rows. */
  ghost predicate IsNew(p: Tables, q: WitnessRequest) {
    forall i :: 0 <= i < |p.log| && p.log[i].devicePub == q.devicePub ==> p.log[i].entry.sequence < q.sequence
  }

  /** A row of the request's key at its sequence, with its tip or with another. */
  ghost predicate HasRow(p: Tables, q: WitnessRequest, same: bool) {
    exists i :: 0 <= i < |p.log| && p.log[i].devicePub == q.devicePub && p.log[i].entry.sequence == q.sequence
             && (p.log[i].entry.tip == q.tip <==> same)
  }

  /** The attached rotation installs the requester, is the tip asked about, and both its keys signed it at the next epoch. */
  predicate RotationFits(c: Crypto, q: WitnessRequest, r: RotationRecord) {
    && r.kind == "rotation" && r.newKey == q.devicePub && r.sequence == q.sequence
    && q.tip == "b3:" + Hex(c.hash(RotationBytes(r)))
    && r.newEpoch == r.oldEpoch + 1 && r.newEpoch < 0x1_0000_0000
    && c.verifies(r.oldKey, RotationBytes(r), r.sigOld) && c.verifies(r.newKey, RotationBytes(r), r.sigNew)
  }

  /** The old key has been witnessed just before the rotation with something else than what the rotation continues. */
  ghost predicate Contradicts(p: Tables, r: RotationRecord) {
    exists i :: 0 <= i < |p.log| && p.log[i].devicePub == r.oldKey && p.log[i].entry.sequence + 1 == r.sequence
             && p.log[i].entry.tip != r.prev
  }

  ghost predicate IsRevoked(p: Tables, key: Bytes) { key in p.devices && p.devices[key].revokedAt != None }

  /** Refused before anything is written, and why. */
  ghost function Turned(c: Crypto, p: Tables, call: Call): Option<Refusal> {
    var q := call.req;
    if !c.verifies(q.devicePub, WitnessBytes(q), q.signature) then Some(BadSignature)
    else if IsNew(p, q) && IsRevoked(p, q.devicePub) then Some(KeyRevoked)
    else if IsNew(p, q) && call.rotationSeq.Some? && call.rotationSeq.value < q.sequence then Some(KeySuperseded)
    else if HasRow(p, q, false) then Some(IsFork)
    else if !IsNew(p, q) && !HasRow(p, q, true) then Some(IsRollback)
    else None
  }

  lemma RowsMean(p: Tables, q: WitnessRequest)
    requires Ordered(p)
    ensures var d := Decide(EntriesOf(p.log, q.devicePub), q.sequence, q.tip);
            && (d.Record? <==> IsNew(p, q)) && (d.Fork? <==> HasRow(p, q, false)) && (d.Replay? <==> HasRow(p, q, true))
  {
    hide Decide, EntriesOf;
    var es := EntriesOf(p.log, q.devicePub);
    IncreasingIsDistinct(es);
    DecideMeans(es, q.sequence, q.tip);
    forall i | 0 <= i < |p.log| && p.log[i].devicePub == q.devicePub ensures p.log[i].entry in es {
      EntriesAreRows(p.log, q.devicePub, p.log[i].entry);
    }
    forall e | e in es ensures exists i :: 0 <= i < |p.log| && p.log[i] == Row(q.devicePub, e) {
      EntriesAreRows(p.log, q.devicePub, e);
    }
  }

  lemma TurnedAway(c: Crypto, p: Tables, call: Call)
    requires Ordered(p) && LoadedFrom(p, call)
    ensures Admit(c, p, call) == Turned(c, p, call)
  {
    hide Decide, WitnessBytes, EntriesOf, LoadedFrom, IsNew, HasRow;
    LoadDecides(p, call);
    RowsMean(p, call.req);
  }

  lemma FitMeans(c: Crypto, q: WitnessRequest, r: RotationRecord)
    ensures LineageVerifies(c, r, q.devicePub, q.sequence, q.tip) <==> RotationFits(c, q, r)
  {
    hide RotationBytes, Hex;
  }

  lemma ContradictsMeans(p: Tables, r: RotationRecord)
    requires Ordered(p)
    ensures PredecessorMatches(p, r) <==> !Contradicts(p, r)
  {
    hide EntriesOf, Find;
    var es := EntriesOf(p.log, r.oldKey);
    IncreasingIsDistinct(es);
    if Contradicts(p, r) {
      var i :| 0 <= i < |p.log| && p.log[i].devicePub == r.oldKey && p.log[i].entry.sequence + 1 == r.sequence
            && p.log[i].entry.tip != r.prev;
      EntriesAreRows(p.log, r.oldKey, p.log[i].entry);
      OneRowPerSequence(es, p.log[i].entry, Find(es, r.sequence - 1).value);
    }
    if !PredecessorMatches(p, r) {
      var e := Find(es, r.sequence - 1).value;
      EntriesAreRows(p.log, r.oldKey, e);
      var i :| 0 <= i < |p.log| && p.log[i] == Row(r.oldKey, e);
      assert p.log[i].entry.sequence + 1 == r.sequence;
    }
  }

  /** What the attached rotation, if any, is refused for. */
  ghost function RotationRefused(c: Crypto, p: Tables, q: WitnessRequest): Option<Refusal> {
    if q.rotation.None? then None
    else if !RotationFits(c, q, q.rotation.value) then Some(BadRotation)
    else if Contradicts(p, q.rotation.value) then Some(WrongPredecessor)
    else None
  }

  /** The lineage row of an accepted rotation, unless the new key has one. */
  ghost function LineageAfter(p: Tables, q: WitnessRequest): seq<Lineage> {
    if q.rotation.None? || exists i :: 0 <= i < |p.lineage| && p.lineage[i].newPub == q.devicePub then p.lineage
    else p.lineage + [Lineage(q.devicePub, q.rotation.value.oldKey, q.sequence)]
  }

  lemma LineageAnswer(c: Crypto, p: Tables, q: WitnessRequest, row: Row)
    requires Ordered(p) && row.entry.sequence == q.sequence
    ensures var refused := RotationRefused(c, p, q);
            var lineage := if refused.Some? then p.lineage else LineageAfter(p, q);
            && RecordLineage(c, p, q) == (p.(lineage := lineage), refused)
            && var p2 := p.(log := p.log + [row]); RecordLineage(c, p2, q) == (p2.(lineage := lineage), refused)
  {
    hide LineageVerifies, PredecessorMatches, RotationFits, Contradicts, EntriesOf;
    if q.rotation.Some? {
      var r := q.rotation.value;
      FitMeans(c, q, r);
      ContradictsMeans(p, r);
      if RotationFits(c, q, r) {
        LineageSequence(c, q);
        OwnRowNoPredecessor(p, row, r);
      }
    }
  }

  /**
   The answer of the witness handler on an ordered ledger, in full: what it is refused for, in the order
   the checks are made, what has been written then, and otherwise what is granted.
   */
  lemma WitnessAnswer(c: Crypto, p: Tables, call: Call)
    requires Ordered(p) && LoadedFrom(p, call)
    ensures var (p', o), q := Witness(c, p, call), call.req;
            var row := Row(q.devicePub, WitnessEntry(q.sequence, q.tip, call.now));
            var turned, refused := Turned(c, p, call), RotationRefused(c, p, q);
            && p'.devices == p.devices
            && p'.log == (if turned.None? && IsNew(p, q) then p.log + [row] else p.log)
            && p'.lineage == (if turned.None? && refused.None? then LineageAfter(p, q) else p.lineage)
            && (turned.Some? ==> o == Refused(turned.value))
            && (turned.None? && refused.Some? ==> o == Refused(refused.value))
            && (turned.None? && refused.None? ==> o.Granted?)
  {
    hide Decide, Admit, Turned, RotationRefused, LineageAfter, RecordLineage, InsertRow, BuildReceipt, LoadedFrom, IsNew, EntriesOf;
    var q := call.req;
    var row := Row(q.devicePub, WitnessEntry(q.sequence, q.tip, call.now));
    TurnedAway(c, p, call);
    LoadDecides(p, call);
    RowsMean(p, q);
    RecordInserts(c, p, call);
    LineageAnswer(c, p, q, row);
  }

  /** The receipt granted: the request's own key, position and tip, whether the key is registered, and the request's id. */
  lemma ReceiptSays(c: Crypto, p: Tables, call: Call)
    requires Ordered(p) && LoadedFrom(p, call) && Witness(c, p, call).1.Granted?
    ensures var r, q := Witness(c, p, call).1.receipt, call.req;
            && r.devicePub == q.devicePub && r.sequence == q.sequence && r.tip == q.tip && r.jti == call.jti
            && (r.registered <==> q.devicePub in p.devices)
            && (IsNew(p, q) ==> r.observedAt == call.now)
            && (!IsNew(p, q) ==> Row(q.devicePub, WitnessEntry(q.sequence, q.tip, r.observedAt)) in p.log)
  {
    hide Decide, Witness, LoadedFrom, EntriesOf, Ordered, IsNew, HasRow;
    var q := call.req;
    var es := EntriesOf(p.log, q.devicePub);
    GrantedMeans(c, p, call);
    LoadDecides(p, call);
    RowsMean(p, q);
    var d := Decide(es, q.sequence, q.tip);
    if d.Replay? {
      OrderedDistinct(p, q.devicePub);
      DecideMeans(es, q.sequence, q.tip);
      EntriesAreRows(p.log, q.devicePub, d.existing);
    }
  }

  lemma OrderedDistinct(p: Tables, key: Bytes)
    requires Ordered(p)
    ensures Distinct(EntriesOf(p.log, key))
  {
    hide EntriesOf;
    IncreasingIsDistinct(EntriesOf(p.log, key));
  }

  // ── The other two requests ─────────────────────────────────────────────────

  /** Registering makes a key known and active, and touches no key already known. */
  lemma RegisterMeans(e: Env, p: Tables, key: Bytes, other: Bytes)
    ensures var p' := Step(e, p, RegisterEvent(key));
            && p'.log == p.log && p'.lineage == p.lineage && p'.devices.Keys == p.devices.Keys + {key}
            && (other in p.devices ==> p'.devices[other] == p.devices[other])
            && (key !in p.devices ==> !Revoked(p', key) && forall epoch: nat :: EpochAllowed(p'.devices[key].minEpoch, epoch))
  {
  }

  /** A revocation that is applied leaves exactly the epochs from its floor on allowed; without one, those allowed before. */
  lemma FloorExactly(e: Env, p: Tables, key: Bytes, at: Option<Bytes>, floor: Option<nat>, now: Bytes, epoch: nat)
    requires key in p.devices && DecideRevoke(e.parse, p.devices[key], at, floor, now).RevokeApply?
    ensures var p' := Step(e, p, RevokeEvent(key, at, floor, now));
            && Revoked(p', key) && p'.log == p.log && p'.lineage == p.lineage && p'.devices.Keys == p.devices.Keys
            && (forall other :: other in p.devices && other != key ==> p'.devices[other] == p.devices[other])
            && (floor.Some? ==> (EpochAllowed(p'.devices[key].minEpoch, epoch) <==> floor.value <= epoch))
            && (floor.None? ==> (EpochAllowed(p'.devices[key].minEpoch, epoch) <==> EpochAllowed(p.devices[key].minEpoch, epoch)))
  {
  }

  /** A revocation that is not applied, or of an unknown key, changes nothing. */
  lemma RevokeRefused(e: Env, p: Tables, key: Bytes, at: Option<Bytes>, floor: Option<nat>, now: Bytes)
    requires key in p.devices ==> DecideRevoke(e.parse, p.devices[key], at, floor, now).RevokeReject?
    ensures Step(e, p, RevokeEvent(key, at, floor, now)) == p
  {
    hide DecideRevoke;
  }
}
