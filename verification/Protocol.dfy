/**
 Device and platform together: one device wraps, rotates its key and has its tips witnessed while
 other keys use the same platform.
 */
module Protocol {
  import opened Text
  import opened Primitives
  import opened Records
  import opened Archive
  import opened Chronicle
  import opened Ledger
  import opened Platform
  import opened Device
  import opened DeviceProofs

  /** The device, the platform's tables, every witness request the device has signed and every receipt granted for one. */
  datatype System = System(device: Device, p: Tables, signed: seq<WitnessRequest>, receipts: seq<Receipt>)

  /** A key that has been this device's identity at some point of its chronicle. */
  predicate Owned(log: seq<Entry>, key: Bytes) {
    log != [] && exists k :: 0 <= k <= |log| && KeyAfter(GenesisKey(log), log, k) == key
  }

  /** A key nobody has used: not this device, not the ledger, not the lineage. */
  predicate FreshKey(s: System, key: Bytes) {
    && !Owned(s.device.log, key)
    && (forall i :: 0 <= i < |s.p.log| ==> s.p.log[i].devicePub != key)
    && (forall i :: 0 <= i < |s.p.lineage| ==> s.p.lineage[i].oldPub != key && s.p.lineage[i].newPub != key)
  }

  datatype Move =
    /** `seal wrap --chronicle` or `seal rekey`. */
    | Command(op: Op)
    /** `seal witness`: sign a request for the tip, attaching the newest entry when asked to and it is a rotation. */
    | Sign(secret: Bytes, attach: bool, signedAt: Bytes)
    /**
     A request the device signed reaches the platform: at once, late, or again, sent by anybody, and
     with any rotation attached, which the signature does not cover.
     */
    | Deliver(i: nat, rotation: Option<RotationRecord>, now: Bytes, jti: Bytes, loaded: seq<WitnessEntry>, rotationSeq: Option<nat>)
    /** Anything another party asks of the platform. */
    | Elsewhere(ev: Event)

  /** The request `seal witness` sends; `None` without a state or with another identity's key. */
  function TipRequest(c: Crypto, d: Device, secret: Bytes, attach: bool, signedAt: Bytes): Option<WitnessRequest> {
    match d.state
    case None => None
    case Some(st) =>
      if c.publicOf(secret) != st.devicePub then None
      else
        var q := CreateWitness(c, secret, st.sequence, st.tip, signedAt);
        if !attach then Some(q)
        else if d.log != [] && d.log[|d.log| - 1].Rotation? && EntryId(c, d.log[|d.log| - 1]) == st.tip
        then Some(q.(rotation := Some(d.log[|d.log| - 1].r)))
        else None
  }

  function Delivered(s: System, m: Move): Call
    requires m.Deliver? && m.i < |s.signed|
  {
    Call(s.signed[m.i].(rotation := m.rotation), m.now, m.jti, m.loaded, m.rotationSeq)
  }

  /** What the platform answers to a delivery. */
  function Answer(t: Tools, s: System, m: Move): Outcome
    requires m.Deliver? && m.i < |s.signed|
  {
    Witness(t.crypto, s.p, Delivered(s, m)).1
  }

  function Next(t: Tools, parse: Clock, s: System, m: Move): System {
    match m
    case Command(op) => s.(device := Apply(t, s.device, op))
    case Elsewhere(ev) => s.(p := Step(Env(t.crypto, parse), s.p, ev))
    case Sign(secret, attach, signedAt) =>
      (match TipRequest(t.crypto, s.device, secret, attach, signedAt)
       case None => s
       case Some(q) => s.(signed := s.signed + [q]))
    case Deliver(i, _, _, _, _, _) =>
      if i >= |s.signed| then s else
      var (p', o) := Witness(t.crypto, s.p, Delivered(s, m));
      s.(p := p',
         receipts := if o.Granted? then s.receipts + [Receipt(o.receipt.devicePub, o.receipt.sequence, o.receipt.tip)] else s.receipts)
  }

  /** `r` says what the device's rotation `k` says; the two signatures, which it does not cover, may differ. */
  predicate OwnRotation(log: seq<Entry>, r: RotationRecord, k: nat) {
    k < |log| && log[k].Rotation? && r.(sigOld := log[k].r.sigOld, sigNew := log[k].r.sigNew) == log[k].r
  }

  /** A rotation that verifies under one of the device's keys says what one of the device's own says. */
  predicate Unforged(c: Crypto, log: seq<Entry>, rotation: Option<RotationRecord>) {
    rotation.Some? && RotationVerifies(c, rotation.value)
    && (Owned(log, rotation.value.oldKey) || Owned(log, rotation.value.newKey)) ==>
      exists k :: 0 <= k < |log| && OwnRotation(log, rotation.value, k)
  }

  /** Other parties do not hold this device's keys: they sign neither requests nor rotations with them. */
  predicate Foreign(c: Crypto, log: seq<Entry>, ev: Event) {
    ev.WitnessEvent? ==> !Owned(log, ev.call.req.devicePub) && Unforged(c, log, ev.call.req.rotation)
  }

  /** An honest move: new identities are fresh, loads match the tables, others keep to their own keys. */
  predicate Honest(t: Tools, parse: Clock, s: System, m: Move) {
    match m
    case Command(WrapOp(a, _, _)) => s.device.log == [] ==> FreshKey(s, t.crypto.publicOf(a.secret))
    case Command(RekeyOp(_, newSecret, _, _, _)) => FreshKey(s, t.crypto.publicOf(newSecret))
    case Sign(_, _, _) => true
    case Deliver(i, rotation, _, _, _, _) =>
      && i < |s.signed| && LoadedFrom(s.p, Delivered(s, m))
      && Unforged(t.crypto, s.device.log, rotation)
    case Elsewhere(ev) => Possible(Env(t.crypto, parse), s.p, ev) && Foreign(t.crypto, s.device.log, ev)
  }

  predicate HonestRun(t: Tools, parse: Clock, s: System, moves: seq<Move>, s': System)
    decreases |moves|
  {
    if moves == [] then s == s'
    else Honest(t, parse, s, moves[0]) && HonestRun(t, parse, Next(t, parse, s, moves[0]), moves[1..], s')
  }

  function Start(disk: map<Bytes, Folder>): System { System(New(disk), EMPTY, [], []) }
}
