/**
 The witness platform: its three tables, the witness and revoke handlers over them, and runs of
 requests.
 */
module Platform {
  import opened Text
  import opened Primitives
  import opened Records
  import opened Ledger

  // ── Revocation rules ───────────────────────────────────────────────────────

  datatype RevocationState = RevocationState(revokedAt: Option<Bytes>, minEpoch: Option<nat>)

  const ACTIVE: RevocationState := RevocationState(None, None)

  datatype RevokeOutcome = RevokeApply(revokedAt: Bytes, minEpoch: Option<nat>) | RevokeReject

  /** RFC 3339 parsing: an instant, or nothing if malformed. */
  type Clock = Bytes -> Option<int>

  /** The revocation instant a request leads to: set once, then only moved earlier. */
  function NewInstant(parse: Clock, current: Option<Bytes>, requested: Option<Bytes>, now: Bytes): Option<Bytes> {
    match (current, requested)
    case (None, None) => Some(now)
    case (None, Some(r)) => if parse(r).None? then None else Some(r)
    case (Some(c), None) => Some(c)
    case (Some(c), Some(r)) =>
      match (parse(c), parse(r))
      case (Some(cd), Some(rd)) => if rd <= cd then Some(r) else None
      case _ => None
  }

  /** `None` if the floor would fall. */
  function NewFloor(current: Option<nat>, requested: Option<nat>): Option<Option<nat>> {
    match (current, requested)
    case (cur, None) => Some(cur)
    case (None, Some(r)) => Some(Some(r))
    case (Some(c), Some(r)) => if r >= c then Some(Some(r)) else None
  }

  /** `decide_revoke`. */
  function DecideRevoke(parse: Clock, current: RevocationState, at: Option<Bytes>, epoch: Option<nat>, now: Bytes): RevokeOutcome {
    match NewInstant(parse, current.revokedAt, at, now)
    case None => RevokeReject
    case Some(instant) =>
      match NewFloor(current.minEpoch, epoch)
      case None => RevokeReject
      case Some(floor) => RevokeApply(instant, floor)
  }

  predicate EpochAllowed(minEpoch: Option<nat>, epoch: nat) { minEpoch.Some? ==> epoch >= minEpoch.value }

  predicate RefuseRevoked(revoked: bool, d: Decision) { revoked && d.Record? }

  predicate RefuseSuperseded(rotationSeq: Option<nat>, sequence: nat, d: Decision) {
    rotationSeq.Some? && sequence > rotationSeq.value && d.Record?
  }

  /** `verify_lineage_rotation` accepting: the rotation verifies, installs the requester, and is the tip. */
  predicate LineageVerifies(c: Crypto, r: RotationRecord, devicePub: Bytes, sequence: nat, tip: Bytes) {
    && RotationVerifies(c, r)
    && r.newKey == devicePub
    && r.sequence == sequence
    && ArchiveId(c.hash(RotationBytes(r))) == tip
  }

  // ── Tables ─────────────────────────────────────────────────────────────────

  /** `witness_log`, in insertion order. */
  datatype Row = Row(devicePub: Bytes, entry: WitnessEntry)

  /** `device_lineage`: at most one row per new key, any number per old key. */
  datatype Lineage = Lineage(newPub: Bytes, oldPub: Bytes, rotationSeq: nat)

  datatype Tables = Tables(log: seq<Row>, devices: map<Bytes, RevocationState>, lineage: seq<Lineage>)

  const EMPTY: Tables := Tables([], map[], [])

  /** The ledger of one key, in insertion order. */
  function EntriesOf(log: seq<Row>, key: Bytes): seq<WitnessEntry> {
    if log == [] then []
    else
      var last := log[|log| - 1];
      EntriesOf(log[..|log| - 1], key) + if last.devicePub == key then [last.entry] else []
  }

  predicate Registered(p: Tables, key: Bytes) { key in p.devices }

  predicate Revoked(p: Tables, key: Bytes) { key in p.devices && p.devices[key].revokedAt.Some? }

  predicate SupersededAt(p: Tables, key: Bytes, rotationSeq: nat) {
    exists i :: 0 <= i < |p.lineage| && p.lineage[i].oldPub == key && p.lineage[i].rotationSeq == rotationSeq
  }

  // ── Witness handler ────────────────────────────────────────────────────────

  datatype WitnessReceipt = WitnessReceipt(
    devicePub: Bytes, registered: bool, sequence: nat, tip: Bytes, observedAt: Bytes,
    prevSequence: Option<nat>, prevTip: Option<Bytes>, prevObservedAt: Option<Bytes>, jti: Bytes)

  function BuildReceipt(devicePub: Bytes, registered: bool, sequence: nat, tip: Bytes, observedAt: Bytes,
                        prev: Option<WitnessEntry>, jti: Bytes): WitnessReceipt
  {
    match prev
    case None => WitnessReceipt(devicePub, registered, sequence, tip, observedAt, None, None, None, jti)
    case Some(e) =>
      WitnessReceipt(devicePub, registered, sequence, tip, observedAt, Some(e.sequence), Some(e.tip), Some(e.observedAt), jti)
  }

  /**
   A request with what the platform's environment supplies: the clock, a fresh id, the rows in the
   order the database returned them, and the lineage row it returned for the key, if any.
   */
  datatype Call = Call(req: WitnessRequest, now: Bytes, jti: Bytes, loaded: seq<WitnessEntry>, rotationSeq: Option<nat>)

  /** What a load may return: all rows of the key in some order, and any one of its lineage rows. */
  predicate LoadedFrom(p: Tables, call: Call) {
    && multiset(call.loaded) == multiset(EntriesOf(p.log, call.req.devicePub))
    && (call.rotationSeq.Some? ==> SupersededAt(p, call.req.devicePub, call.rotationSeq.value))
    && (call.rotationSeq.None? ==> forall i :: 0 <= i < |p.lineage| ==> p.lineage[i].oldPub != call.req.devicePub)
  }

  datatype Refusal = BadSignature | KeyRevoked | KeySuperseded | IsFork | IsRollback | InsertConflict | BadRotation | WrongPredecessor

  datatype Outcome = Granted(receipt: WitnessReceipt) | Refused(why: Refusal)

  /** First half of the handler: everything decided before the first write. */
  function Admit(c: Crypto, p: Tables, call: Call): Option<Refusal> {
    var q := call.req;
    if !WitnessVerifies(c, q) then Some(BadSignature) else
    var d := Decide(call.loaded, q.sequence, q.tip);
    if RefuseRevoked(Revoked(p, q.devicePub), d) then Some(KeyRevoked)
    else if RefuseSuperseded(call.rotationSeq, q.sequence, d) then Some(KeySuperseded)
    else if d.Fork? then Some(IsFork)
    else if d.Rollback? then Some(IsRollback)
    else None
  }

  /** `witness_insert` under the primary key `(device_pub, sequence)`. */
  function InsertRow(p: Tables, row: Row): Option<Tables> {
    if exists i :: 0 <= i < |p.log| && p.log[i].devicePub == row.devicePub && p.log[i].entry.sequence == row.entry.sequence
    then None else Some(p.(log := p.log + [row]))
  }

  /** The old key's witnessed entry just before the rotation, if there is one, is what it continues. */
  predicate PredecessorMatches(p: Tables, r: RotationRecord) {
    r.sequence > 0 ==>
      match Find(EntriesOf(p.log, r.oldKey), r.sequence - 1)
      case Some(e) => e.tip == r.prev
      case None => true
  }

  /** `lineage_insert`: the first row for a new key stays. */
  function InsertLineage(p: Tables, row: Lineage): Tables {
    if exists i :: 0 <= i < |p.lineage| && p.lineage[i].newPub == row.newPub then p
    else p.(lineage := p.lineage + [row])
  }

  /** The attached rotation, if any, is checked and recorded after the ledger row has been written. */
  function RecordLineage(c: Crypto, p: Tables, q: WitnessRequest): (Tables, Option<Refusal>) {
    match q.rotation
    case None => (p, None)
    case Some(r) =>
      if !LineageVerifies(c, r, q.devicePub, q.sequence, q.tip) then (p, Some(BadRotation))
      else if !PredecessorMatches(p, r) then (p, Some(WrongPredecessor))
      else (InsertLineage(p, Lineage(q.devicePub, r.oldKey, r.sequence)), None)
  }

  /** Second half: the writes, against the tables as they are by then. */
  function Complete(c: Crypto, p: Tables, call: Call, registered: bool): (Tables, Outcome) {
    var q := call.req;
    var d := Decide(call.loaded, q.sequence, q.tip);
    var observedAt := if d.Replay? then d.existing.observedAt else call.now;
    var inserted := if d.Record? then InsertRow(p, Row(q.devicePub, WitnessEntry(q.sequence, q.tip, call.now))) else Some(p);
    match inserted
    case None => (p, Refused(InsertConflict))
    case Some(p') =>
      var prev := if d.Record? || d.Replay? then d.prev else None;
      match RecordLineage(c, p', q)
      case (p'', Some(why)) => (p'', Refused(why))
      case (p'', None) =>
        (p'', Granted(BuildReceipt(q.devicePub, registered, q.sequence, q.tip, observedAt, prev, call.jti)))
  }

  /** `witness_handler` run without interference. */
  function Witness(c: Crypto, p: Tables, call: Call): (Tables, Outcome) {
    match Admit(c, p, call)
    case Some(why) => (p, Refused(why))
    case None => Complete(c, p, call, Registered(p, call.req.devicePub))
  }

  // ── Other requests and runs ────────────────────────────────────────────────

  /** `register_device_handler`: the key is unique across the registry. */
  function Register(p: Tables, key: Bytes): Tables {
    if key in p.devices then p else p.(devices := p.devices[key := ACTIVE])
  }

  /** `revoke_device_handler` for a registered key. */
  function Revoke(parse: Clock, p: Tables, key: Bytes, at: Option<Bytes>, epoch: Option<nat>, now: Bytes): Tables {
    if key !in p.devices then p else
    match DecideRevoke(parse, p.devices[key], at, epoch, now)
    case RevokeReject => p
    case RevokeApply(instant, floor) => p.(devices := p.devices[key := RevocationState(Some(instant), floor)])
  }

  datatype Event =
    | WitnessEvent(call: Call)
    | RevokeEvent(key: Bytes, at: Option<Bytes>, epoch: Option<nat>, now: Bytes)
    | RegisterEvent(key: Bytes)

  datatype Env = Env(crypto: Crypto, parse: Clock)

  function Step(e: Env, p: Tables, ev: Event): Tables {
    match ev
    case WitnessEvent(call) => Witness(e.crypto, p, call).0
    case RevokeEvent(key, at, epoch, now) => Revoke(e.parse, p, key, at, epoch, now)
    case RegisterEvent(key) => Register(p, key)
  }

  /** What the environment may supply: loads that match the tables, a clock that prints parseable instants. */
  predicate Possible(e: Env, p: Tables, ev: Event) {
    match ev
    case WitnessEvent(call) => LoadedFrom(p, call)
    case RevokeEvent(_, _, _, now) => e.parse(now).Some?
    case RegisterEvent(_) => true
  }

  /** One request handled after the other. */
  predicate Runs(e: Env, p: Tables, events: seq<Event>, p': Tables)
    decreases |events|
  {
    if events == [] then p == p'
    else Possible(e, p, events[0]) && Runs(e, Step(e, p, events[0]), events[1..], p')
  }
}
