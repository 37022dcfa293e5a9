/**
 For every honest interleaving of wraps, key rotations, signing and delivery of witness requests: what
 the platform answers to each delivery, exactly, and that every receipt ever granted passes the
 cross-check against the final chronicle.
 */
module ProtocolProofs {
  import opened Text
  import opened Primitives
  import opened Records
  import opened Archive
  import opened Wrap
  import opened Chronicle
  import opened ChronicleProofs
  import opened Sorting
  import opened Ledger
  import opened Platform
  import opened PlatformProofs
  import opened Device
  import opened DeviceProofs
  import opened DiskProofs
  import opened Protocol

  // ── Invariant ──────────────────────────────────────────────────────────────

  function ReceiptOf(row: Row): Receipt { Receipt(row.devicePub, row.entry.sequence, row.entry.tip) }

  /** A ledger row under one of the device's keys tells the truth about the chronicle. */
  ghost predicate TrueRow(c: Crypto, log: seq<Entry>, row: Row) {
    Owned(log, row.devicePub) ==> CrossChecks(c, GenesisKey(log), log, ReceiptOf(row))
  }

  /** A lineage row away from one of the device's keys is one of the chronicle's rotations. */
  ghost predicate TrueLineage(log: seq<Entry>, l: Lineage) {
    Owned(log, l.oldPub) ==>
      && l.rotationSeq < |log| && log[l.rotationSeq].Rotation?
      && l.oldPub == KeyAfter(GenesisKey(log), log, l.rotationSeq)
  }

  /** Every rotation installs a key that was never in force before. */
  ghost predicate FreshRotations(log: seq<Entry>) {
    forall k, j :: 0 <= j <= k < |log| && log[k].Rotation? ==>
      KeyAfter(GenesisKey(log), log, j) != KeyAfter(GenesisKey(log), log, k + 1)
  }

  /** A request signed by the device tells the truth about the chronicle, and its signature verifies. */
  ghost predicate TrueRequest(c: Crypto, log: seq<Entry>, q: WitnessRequest) {
    WitnessVerifies(c, q) && CrossChecks(c, GenesisKey(log), log, Receipt(q.devicePub, q.sequence, q.tip))
  }

  ghost predicate InStep(t: Tools, parse: Clock, s: System) {
    var c, log := t.crypto, s.device.log;
    && Consistent(t, s.device) && WithinWidth(log)
    && Sound(Env(c, parse), s.p)
    && FreshRotations(log)
    && (forall i :: 0 <= i < |s.p.log| ==> TrueRow(c, log, s.p.log[i]))
    && (forall i :: 0 <= i < |s.p.lineage| ==> TrueLineage(log, s.p.lineage[i]))
    && (forall i :: 0 <= i < |s.signed| ==> TrueRequest(c, log, s.signed[i]))
    && (forall i :: 0 <= i < |s.receipts| ==> CrossChecks(c, GenesisKey(log), log, s.receipts[i]))
  }

  lemma StartInStep(t: Tools, parse: Clock, disk: map<Bytes, Folder>)
    ensures InStep(t, parse, Start(disk))
  {
    EmptySound(Env(t.crypto, parse));
    NewConsistent(t, disk);
  }

  // ── Growing the log ────────────────────────────────────────────────────────

  lemma GrownWalk(log: seq<Entry>, e: Entry, k: nat)
    requires log != [] && k <= |log|
    ensures GenesisKey(log + [e]) == GenesisKey(log)
    ensures KeyAfter(GenesisKey(log), log + [e], k) == KeyAfter(GenesisKey(log), log, k)
  {
    assert (log + [e])[..|log|] == log;
    PrefixWalk(GenesisKey(log), log + [e], |log|, k);
  }

  /** A new entry adds at most one owned key: the one in force after it. */
  lemma GrownOwned(log: seq<Entry>, e: Entry, key: Bytes)
    requires log != []
    ensures Owned(log, key) ==> Owned(log + [e], key)
    ensures Owned(log + [e], key) ==> Owned(log, key) || (e.Rotation? && key == e.r.newKey)
  {
    hide GenesisKey;
    var g, longer := GenesisKey(log), log + [e];
    if Owned(log, key) {
      var k :| 0 <= k <= |log| && KeyAfter(g, log, k) == key;
      GrownWalk(log, e, k);
    }
    if Owned(longer, key) {
      GrownWalk(log, e, |log|);
      var k :| 0 <= k <= |longer| && KeyAfter(GenesisKey(longer), longer, k) == key;
      if k <= |log| { GrownWalk(log, e, k); }
    }
  }

  lemma GrownLineage(log: seq<Entry>, e: Entry, l: Lineage)
    requires log != [] && TrueLineage(log, l) && (e.Rotation? ==> l.oldPub != e.r.newKey)
    ensures TrueLineage(log + [e], l)
  {
    hide Owned, GenesisKey, KeyAfter;
    GrownOwned(log, e, l.oldPub);
    if Owned(log, l.oldPub) { GrownWalk(log, e, l.rotationSeq); }
  }

  lemma GrownCheck(c: Crypto, log: seq<Entry>, e: Entry, r: Receipt)
    requires log != [] && CrossChecks(c, GenesisKey(log), log, r)
    ensures CrossChecks(c, GenesisKey(log + [e]), log + [e], r)
  {
    hide GenesisKey, EntryId, KeyAfter;
    GrownWalk(log, e, r.sequence + 1);
  }

  lemma GrownRow(c: Crypto, log: seq<Entry>, e: Entry, row: Row)
    requires log != [] && TrueRow(c, log, row) && (e.Rotation? ==> row.devicePub != e.r.newKey)
    ensures TrueRow(c, log + [e], row)
  {
    hide Owned, CrossChecks;
    GrownOwned(log, e, row.devicePub);
    if Owned(log, row.devicePub) { GrownCheck(c, log, e, ReceiptOf(row)); }
  }

  lemma GrownFresh(log: seq<Entry>, e: Entry)
    requires log != [] && FreshRotations(log) && (e.Rotation? ==> !Owned(log, e.r.newKey))
    ensures FreshRotations(log + [e])
  {
    hide GenesisKey;
    var g, longer, n := GenesisKey(log), log + [e], |log|;
    GrownWalk(log, e, n);
    forall k, j | 0 <= j <= k < |longer| && longer[k].Rotation?
      ensures KeyAfter(GenesisKey(longer), longer, j) != KeyAfter(GenesisKey(longer), longer, k + 1)
    {
      GrownWalk(log, e, j);
      if k < n {
        GrownWalk(log, e, k + 1);
        assert log[k].Rotation?;
      } else {
        assert KeyAfter(g, longer, n + 1) == e.r.newKey;
      }
    }
  }

  // ── Commands ───────────────────────────────────────────────────────────────

  lemma FirstEntry(log: seq<Entry>, key: Bytes)
    requires |log| == 1 && log[0].Content?
    ensures Owned(log, key) <==> key == log[0].m.device.publicKey
    ensures FreshRotations(log)
  {
    assert KeyAfter(GenesisKey(log), log, 0) == GenesisKey(log);
    assert KeyAfter(GenesisKey(log), log, 1) == GenesisKey(log);
  }

  /** What a command that took effect appended. */
  lemma CommandAppends(t: Tools, d: Device, op: Op)
    requires ToolLaws(t) && Consistent(t, d)
    ensures var d' := Apply(t, d, op);
            d'.log == d.log || (|d'.log| == |d.log| + 1 && d'.log == d.log + [d'.log[|d.log|]] &&
              match op
              case WrapOp(a, _, _) =>
                d'.log[|d.log|].Content? && d'.log[|d.log|].m.device.publicKey == t.crypto.publicOf(a.secret)
              case RekeyOp(_, newSecret, _, _, _) =>
                d.log != [] && d'.log[|d.log|].Rotation? && d'.log[|d.log|].r.newKey == t.crypto.publicOf(newSecret))
  {
    hide EntryId, Wrapped, ManifestBytes, RotationBytes, ToolLaws, Made, EndsWithSeal, FolderAt;
    if op.WrapOp? {
      var resolved := ResolveChronicle(d.state, t.crypto.publicOf(op.args.secret));
      var outcome := WrapOutcome(t, d, op.args, op.payload, op.out);
      if outcome.Some? {
        WrappedEntry(t, op.args, resolved.value, op.payload, FolderAt(d, op.out).dir, outcome.value.0, outcome.value.1);
      }
    }
  }

  lemma CommandKeeps(t: Tools, parse: Clock, s: System, op: Op)
    requires ToolLaws(t) && InStep(t, parse, s) && Honest(t, parse, s, Command(op))
    requires WithinWidth(Apply(t, s.device, op).log)
    ensures InStep(t, parse, s.(device := Apply(t, s.device, op)))
  {
    hide Apply, Consistent, Sound, WithinWidth, FreshRotations, TrueRow, TrueLineage, CrossChecks, ToolLaws, Owned,
         WitnessVerifies;
    var d := s.device;
    var d' := Apply(t, d, op);
    CommandKeepsConsistent(t, d, op);
    CommandAppends(t, d, op);
    if d'.log != d.log {
      var e := d'.log[|d.log|];
      if d.log == [] {
        FirstInStep(t, parse, s, e, d');
      } else {
        NotOwned(s, e);
        GrownFresh(d.log, e);
        forall i | 0 <= i < |s.p.log| ensures TrueRow(t.crypto, d'.log, s.p.log[i]) { GrownRow(t.crypto, d.log, e, s.p.log[i]); }
        forall i | 0 <= i < |s.p.lineage| ensures TrueLineage(d'.log, s.p.lineage[i]) { GrownLineage(d.log, e, s.p.lineage[i]); }
        forall i | 0 <= i < |s.signed| ensures TrueRequest(t.crypto, d'.log, s.signed[i]) {
          var q := s.signed[i];
          GrownCheck(t.crypto, d.log, e, Receipt(q.devicePub, q.sequence, q.tip));
        }
        forall i | 0 <= i < |s.receipts| ensures CrossChecks(t.crypto, GenesisKey(d'.log), d'.log, s.receipts[i]) {
          GrownCheck(t.crypto, d.log, e, s.receipts[i]);
        }
      }
    }
  }

  lemma NotOwned(s: System, e: Entry)
    requires e.Rotation? ==> FreshKey(s, e.r.newKey)
    ensures e.Rotation? ==> !Owned(s.device.log, e.r.newKey)
    ensures e.Rotation? ==> forall i :: 0 <= i < |s.p.log| ==> s.p.log[i].devicePub != e.r.newKey
    ensures e.Rotation? ==> forall i :: 0 <= i < |s.p.lineage| ==> s.p.lineage[i].oldPub != e.r.newKey
  {
    hide Owned;
  }

  lemma FirstInStep(t: Tools, parse: Clock, s: System, e: Entry, d': Device)
    requires InStep(t, parse, s) && s.device.log == [] && d'.log == [e] && e.Content?
    requires Consistent(t, d') && WithinWidth(d'.log) && FreshKey(s, e.m.device.publicKey)
    ensures InStep(t, parse, s.(device := d'))
  {
    hide Consistent, Sound, WithinWidth, FreshRotations, Owned, EntryId, KeyAfter, WitnessVerifies;
    var key := e.m.device.publicKey;
    forall other ensures Owned(d'.log, other) <==> other == key { FirstEntry(d'.log, other); }
    FirstEntry(d'.log, key);
    assert s.receipts != [] ==> CrossChecks(t.crypto, GenesisKey(s.device.log), s.device.log, s.receipts[0]);
    assert s.signed != [] ==> TrueRequest(t.crypto, s.device.log, s.signed[0]);
  }

  // ── What the device signs ──────────────────────────────────────────────────

  lemma {:induction false} SameKeyNoRotation(log: seq<Entry>, k: nat, n: nat)
    requires FreshRotations(log) && k < n <= |log| && log[k].Rotation?
    ensures KeyAfter(GenesisKey(log), log, k) != KeyAfter(GenesisKey(log), log, n)
    decreases n
  {
    hide GenesisKey;
    if log[n - 1].Content? { SameKeyNoRotation(log, k, n - 1); }
  }

  /** The state of a consistent device within width, spelled out. */
  lemma TipState(t: Tools, d: Device)
    requires Consistent(t, d) && WithinWidth(d.log) && d.state.Some?
    ensures d.log != []
    ensures d.state.value.devicePub == KeyAfter(GenesisKey(d.log), d.log, |d.log|)
    ensures d.state.value.sequence == |d.log| - 1 && d.state.value.tip == EntryId(t.crypto, d.log[|d.log| - 1])
  {
    hide Made, EntryId, KeyAfter, RotationsIn;
  }

  /** The request itself: properly signed, for the tip, under the key in force. */
  lemma TipRequestShape(t: Tools, d: Device, secret: Bytes, attach: bool, signedAt: Bytes)
    requires SignatureLaws(t.crypto) && Consistent(t, d) && WithinWidth(d.log)
    requires TipRequest(t.crypto, d, secret, attach, signedAt).Some?
    ensures d.log != []
    ensures var q, n := TipRequest(t.crypto, d, secret, attach, signedAt).value, |d.log|;
            && WitnessVerifies(t.crypto, q)
            && q.devicePub == KeyAfter(GenesisKey(d.log), d.log, n)
            && q.sequence == n - 1 && q.tip == EntryId(t.crypto, d.log[n - 1])
            && (q.rotation.Some? ==> d.log[n - 1] == Rotation(q.rotation.value))
  {
    hide Consistent, WithinWidth, EntryId, KeyAfter, WitnessVerifies, WitnessBytes;
    TipState(t, d);
    var st, rotation := d.state.value, TipRequest(t.crypto, d, secret, attach, signedAt).value.rotation;
    CreatedWitnessVerifies(t.crypto, secret, st.sequence, st.tip, signedAt, rotation);
    var q := CreateWitness(t.crypto, secret, st.sequence, st.tip, signedAt);
    assert q == q.(rotation := None);
  }

  /**
   `witness` signs exactly with a state file, its own identity's key and, when a rotation is to be attached,
   that rotation as the newest entry; then it asks about the tip, with the rotation or without.
   */
  lemma TipRequestMeans(c: Crypto, d: Device, secret: Bytes, attach: bool, signedAt: Bytes)
    ensures var q, last := TipRequest(c, d, secret, attach, signedAt), if d.log == [] then None else Some(d.log[|d.log| - 1]);
            && (q.Some? <==>
                  && d.state.Some? && c.publicOf(secret) == d.state.value.devicePub
                  && (attach ==> last.Some? && last.value.Rotation? && EntryId(c, last.value) == d.state.value.tip))
            && (q.Some? ==>
                  && q.value.devicePub == d.state.value.devicePub && q.value.sequence == d.state.value.sequence
                  && q.value.tip == d.state.value.tip && q.value.signedAt == signedAt
                  && (attach ==> q.value.rotation == Some(last.value.r)) && (!attach ==> q.value.rotation == None))
  {
    hide EntryId, WitnessBytes;
  }

  lemma SignKeeps(t: Tools, parse: Clock, s: System, m: Move)
    requires ToolLaws(t) && InStep(t, parse, s) && m.Sign?
    ensures InStep(t, parse, Next(t, parse, s, m))
  {
    hide EntryId, KeyAfter, Consistent, WithinWidth, FreshRotations, WitnessVerifies, Sound, ToolLaws, TrueRow, TrueLineage, GenesisKey;
    if TipRequest(t.crypto, s.device, m.secret, m.attach, m.signedAt).Some? {
      LawfulTools(t);
      TipRequestShape(t, s.device, m.secret, m.attach, m.signedAt);
    }
  }

  // ── What the platform answers ──────────────────────────────────────────────

  /** Rotation `k` of a device's log, in the terms the platform checks. */
  lemma RotationMade(t: Tools, g: Bytes, log: seq<Entry>, k: nat)
    requires k < |log| && log[k].Rotation? && WithinWidth(log) && Made(t, g, log, k)
    ensures var r := log[k].r;
            && k > 0 && r.oldKey == KeyAfter(g, log, k) && r.newKey == KeyAfter(g, log, k + 1)
            && r.sequence == k && r.prev == EntryId(t.crypto, log[k - 1]) && RotationVerifies(t.crypto, r)
  {
    hide EntryId, RotationVerifies, ManifestBytes;
    RotationsGrow(log, k + 1, |log|);
  }

  lemma SameRotationText(r: RotationRecord, own: RotationRecord)
    requires r.(sigOld := own.sigOld, sigNew := own.sigNew) == own
    ensures RotationBytes(r) == RotationBytes(own)
  {
    assert RotationTree(r) == RotationTree(own);
  }

  /** What says and verifies as rotation `k` of the device passes the platform's checks beside a request for that entry. */
  lemma RotationPassesAt(t: Tools, d: Device, p: Tables, r: RotationRecord, k: nat)
    requires Consistent(t, d) && WithinWidth(d.log) && OwnRotation(d.log, r, k) && RotationVerifies(t.crypto, r)
    requires forall i :: 0 <= i < |p.log| ==> TrueRow(t.crypto, d.log, p.log[i])
    ensures LineageVerifies(t.crypto, r, KeyAfter(GenesisKey(d.log), d.log, k + 1), k, EntryId(t.crypto, d.log[k]))
    ensures PredecessorMatches(p, r)
  {
    hide GenesisKey, RotationVerifies, RotationBytes, HeadOf, ArchiveId, WithinWidth, Made, KeyAfter, EntriesOf, Find;
    var log, g := d.log, GenesisKey(d.log);
    RotationMade(t, g, log, k);
    SameRotationText(r, log[k].r);
    assert r.oldKey == log[k].r.oldKey && r.newKey == log[k].r.newKey && r.sequence == log[k].r.sequence && r.prev == log[k].r.prev;
    assert EntryId(t.crypto, log[k]) == ArchiveId(t.crypto.hash(RotationBytes(r)));
    var found := Find(EntriesOf(p.log, r.oldKey), k - 1);
    if found.Some? {
      EntriesAreRows(p.log, r.oldKey, found.value);
      var i :| 0 <= i < |p.log| && p.log[i] == Row(r.oldKey, found.value);
      assert Owned(log, r.oldKey);
      assert TrueRow(t.crypto, log, p.log[i]);
    }
  }

  /** A rotation from or to a key of the device that passes beside a request says what the requested entry says. */
  lemma OwnRotationPlace(t: Tools, d: Device, r: RotationRecord, key: Bytes, sequence: nat, tip: Bytes)
    requires Consistent(t, d) && WithinWidth(d.log) && Unforged(t.crypto, d.log, Some(r))
    requires LineageVerifies(t.crypto, r, key, sequence, tip) && (Owned(d.log, r.oldKey) || Owned(d.log, key))
    ensures OwnRotation(d.log, r, sequence)
    ensures key == KeyAfter(GenesisKey(d.log), d.log, sequence + 1)
    ensures r.sequence == sequence && r.oldKey == KeyAfter(GenesisKey(d.log), d.log, sequence)
  {
    hide GenesisKey, RotationVerifies, RotationBytes, HeadOf, ArchiveId, WithinWidth, Made, EntryId, KeyAfter, Owned;
    var k :| 0 <= k < |d.log| && OwnRotation(d.log, r, k);
    RotationMade(t, GenesisKey(d.log), d.log, k);
    assert r.oldKey == d.log[k].r.oldKey && r.newKey == d.log[k].r.newKey && r.sequence == d.log[k].r.sequence;
  }

  /** Every ledger row of a request's key is true, so at the request's sequence there is only its own tip. */
  lemma RowsAgree(c: Crypto, log: seq<Entry>, rows: seq<Row>, q: WitnessRequest, e: WitnessEntry)
    requires TrueRequest(c, log, q) && forall i :: 0 <= i < |rows| ==> TrueRow(c, log, rows[i])
    requires e in EntriesOf(rows, q.devicePub)
    ensures e.sequence < |log| && (e.sequence == q.sequence ==> e.tip == q.tip)
  {
    hide GenesisKey, EntryId, WitnessVerifies;
    EntriesAreRows(rows, q.devicePub, e);
    var i :| 0 <= i < |rows| && rows[i] == Row(q.devicePub, e);
    assert Owned(log, q.devicePub);
    assert TrueRow(c, log, rows[i]);
  }

  /** A request of the device never lies beyond a rotation away from its key. */
  lemma NeverSuperseded(c: Crypto, log: seq<Entry>, p: Tables, q: WitnessRequest, r: nat)
    requires TrueRequest(c, log, q) && FreshRotations(log) && SupersededAt(p, q.devicePub, r)
    requires forall i :: 0 <= i < |p.lineage| ==> TrueLineage(log, p.lineage[i])
    ensures q.sequence < r
  {
    hide GenesisKey, EntryId, WitnessVerifies, FreshRotations;
    assert Owned(log, q.devicePub);
    var i :| 0 <= i < |p.lineage| && p.lineage[i].oldPub == q.devicePub && p.lineage[i].rotationSeq == r;
    assert TrueLineage(log, p.lineage[i]);
    if r <= q.sequence { SameKeyNoRotation(log, r, q.sequence + 1); }
  }

  /** Some row of the request's key lies above it, and none at it. */
  predicate Overtaken(p: Tables, q: WitnessRequest) {
    && (exists e :: e in EntriesOf(p.log, q.devicePub) && e.sequence > q.sequence)
    && forall e :: e in EntriesOf(p.log, q.devicePub) ==> e.sequence != q.sequence
  }

  /** The request's key is revoked, and the request is for something new. */
  predicate TooLate(p: Tables, q: WitnessRequest) {
    Revoked(p, q.devicePub) && forall e :: e in EntriesOf(p.log, q.devicePub) ==> e.sequence < q.sequence
  }

  /** No rotation is attached, or one that verifies and says what the entry the request is for says. */
  predicate FittingRotation(c: Crypto, log: seq<Entry>, q: WitnessRequest) {
    q.rotation.Some? ==> OwnRotation(log, q.rotation.value, q.sequence) && RotationVerifies(c, q.rotation.value)
  }

  lemma DeliveryDecision(c: Crypto, log: seq<Entry>, p: Tables, call: Call)
    requires Ordered(p) && LoadedFrom(p, call) && TrueRequest(c, log, call.req)
    requires forall i :: 0 <= i < |p.log| ==> TrueRow(c, log, p.log[i])
    ensures var d, q := Decide(call.loaded, call.req.sequence, call.req.tip), call.req;
            && !d.Fork?
            && (d.Rollback? <==> Overtaken(p, q))
            && (d.Record? <==> forall e :: e in EntriesOf(p.log, q.devicePub) ==> e.sequence < q.sequence)
  {
    hide GenesisKey, EntryId, KeyAfter, TrueRow, Decide, EntriesOf, LoadedFrom, TrueRequest;
    var q := call.req;
    var es := EntriesOf(p.log, q.devicePub);
    LoadDecides(p, call);
    IncreasingIsDistinct(es);
    DecideMeans(es, q.sequence, q.tip);
    forall e | e in es ensures e.sequence == q.sequence ==> e.tip == q.tip { RowsAgree(c, log, p.log, q, e); }
  }

  lemma RotationChecked(t: Tools, s: System, q: WitnessRequest)
    requires Consistent(t, s.device) && WithinWidth(s.device.log) && TrueRequest(t.crypto, s.device.log, q)
    requires forall i :: 0 <= i < |s.p.log| ==> TrueRow(t.crypto, s.device.log, s.p.log[i])
    requires Unforged(t.crypto, s.device.log, q.rotation)
    ensures RotationPasses(t.crypto, s.p, q) <==> FittingRotation(t.crypto, s.device.log, q)
    ensures q.rotation.Some? && !FittingRotation(t.crypto, s.device.log, q) ==>
              !LineageVerifies(t.crypto, q.rotation.value, q.devicePub, q.sequence, q.tip)
  {
    hide GenesisKey, EntryId, KeyAfter, TrueRow, Consistent, WithinWidth, LineageVerifies, PredecessorMatches, WitnessVerifies,
         OwnRotation, RotationVerifies, Unforged, Owned;
    if q.rotation.Some? {
      if FittingRotation(t.crypto, s.device.log, q) { RotationPassesAt(t, s.device, s.p, q.rotation.value, q.sequence); }
      if LineageVerifies(t.crypto, q.rotation.value, q.devicePub, q.sequence, q.tip) {
        RequestOwned(t.crypto, s.device.log, q);
        LineageRotation(t.crypto, q);
        OwnRotationPlace(t, s.device, q.rotation.value, q.devicePub, q.sequence, q.tip);
      }
    }
  }

  lemma RequestOwned(c: Crypto, log: seq<Entry>, q: WitnessRequest)
    requires TrueRequest(c, log, q)
    ensures Owned(log, q.devicePub)
  {
    hide GenesisKey, EntryId, WitnessVerifies;
  }

  lemma LineageRotation(c: Crypto, q: WitnessRequest)
    requires q.rotation.Some? && LineageVerifies(c, q.rotation.value, q.devicePub, q.sequence, q.tip)
    ensures RotationVerifies(c, q.rotation.value)
  {
    hide RotationVerifies;
  }

  /**
   The answer to a request the device signed: a rollback exactly when it has been overtaken, refused as
   revoked exactly when it is new and the key is revoked, refused for its rotation exactly when a
   rotation is attached that is not its own entry, and granted in all other cases.
   */
  predicate FairAnswer(c: Crypto, log: seq<Entry>, p: Tables, q: WitnessRequest, o: Outcome) {
    if Overtaken(p, q) then o == Refused(IsRollback)
    else if TooLate(p, q) then o == Refused(KeyRevoked)
    else if !FittingRotation(c, log, q) then o == Refused(BadRotation)
    else o.Granted?
  }

  /** What the handler answers, by its decision and the check of the rotation. */
  lemma WitnessOutcome(c: Crypto, p: Tables, call: Call, fits: bool)
    requires WitnessVerifies(c, call.req) && !Decide(call.loaded, call.req.sequence, call.req.tip).Fork?
    requires call.rotationSeq.Some? ==> call.req.sequence <= call.rotationSeq.value
    requires var q := call.req;
             var row := Row(q.devicePub, WitnessEntry(q.sequence, q.tip, call.now));
             && (Decide(call.loaded, q.sequence, q.tip).Record? ==> InsertRow(p, row) == Some(p.(log := p.log + [row])))
             && RecordLineage(c, p, q).1 == (if fits then None else Some(BadRotation))
             && RecordLineage(c, p.(log := p.log + [row]), q).1 == (if fits then None else Some(BadRotation))
    ensures var o, d := Witness(c, p, call).1, Decide(call.loaded, call.req.sequence, call.req.tip);
            if d.Rollback? then o == Refused(IsRollback)
            else if d.Record? && Revoked(p, call.req.devicePub) then o == Refused(KeyRevoked)
            else if !fits then o == Refused(BadRotation)
            else o.Granted?
  {
    hide Decide, RecordLineage, InsertRow, WitnessVerifies, Revoked, BuildReceipt;
  }

  lemma RotationAnswer(t: Tools, s: System, q: WitnessRequest, row: Row)
    requires Consistent(t, s.device) && WithinWidth(s.device.log) && TrueRequest(t.crypto, s.device.log, q)
    requires forall i :: 0 <= i < |s.p.log| ==> TrueRow(t.crypto, s.device.log, s.p.log[i])
    requires Unforged(t.crypto, s.device.log, q.rotation)
    requires row.entry.sequence == q.sequence
    ensures var refusal := if FittingRotation(t.crypto, s.device.log, q) then None else Some(BadRotation);
            && RecordLineage(t.crypto, s.p, q).1 == refusal
            && RecordLineage(t.crypto, s.p.(log := s.p.log + [row]), q).1 == refusal
  {
    hide GenesisKey, EntryId, KeyAfter, TrueRow, Consistent, WithinWidth, LineageVerifies, PredecessorMatches, WitnessVerifies,
         TrueRequest, FittingRotation, Unforged;
    RotationChecked(t, s, q);
    NoRotationFits(t.crypto, s.device.log, q);
    if q.rotation.Some? && LineageVerifies(t.crypto, q.rotation.value, q.devicePub, q.sequence, q.tip) {
      LineageSequence(t.crypto, q);
      OwnRowNoPredecessor(s.p, row, q.rotation.value);
    }
  }

  lemma NoRotationFits(c: Crypto, log: seq<Entry>, q: WitnessRequest)
    ensures q.rotation.None? ==> FittingRotation(c, log, q)
  {
  }

  /** Whenever a request the device signed is delivered, its answer is the fair one: never a fork, a conflict or superseded. */
  lemma DeliveryAnswered(t: Tools, parse: Clock, s: System, m: Move)
    requires ToolLaws(t) && InStep(t, parse, s) && m.Deliver? && Honest(t, parse, s, m)
    ensures FairAnswer(t.crypto, s.device.log, s.p, Delivered(s, m).req, Answer(t, s, m))
  {
    hide GenesisKey, EntryId, KeyAfter, TrueRow, TrueLineage, Decide, EntriesOf, CrossChecks, Consistent, WithinWidth,
         FreshRotations, WitnessVerifies, Revoked, LoadedFrom, Overtaken, FittingRotation, InsertRow, ToolLaws, Witness,
         RecordLineage, TrueRequest, Unforged;
    var c, log, call := t.crypto, s.device.log, Delivered(s, m);
    var q := call.req;
    DeliveredTrue(c, log, s, m);
    DeliveryDecision(c, log, s.p, call);
    DeliveryNotSuperseded(c, log, s.p, call);
    RecordInserts(c, s.p, call);
    RotationAnswer(t, s, q, Row(q.devicePub, WitnessEntry(q.sequence, q.tip, call.now)));
    WitnessOutcome(c, s.p, call, FittingRotation(c, log, q));
  }

  lemma DeliveredTrue(c: Crypto, log: seq<Entry>, s: System, m: Move)
    requires m.Deliver? && m.i < |s.signed| && forall i :: 0 <= i < |s.signed| ==> TrueRequest(c, log, s.signed[i])
    ensures TrueRequest(c, log, Delivered(s, m).req) && WitnessVerifies(c, Delivered(s, m).req)
  {
    hide CrossChecks;
    assert TrueRequest(c, log, s.signed[m.i]);
  }

  lemma DeliveryNotSuperseded(c: Crypto, log: seq<Entry>, p: Tables, call: Call)
    requires LoadedFrom(p, call) && TrueRequest(c, log, call.req) && FreshRotations(log)
    requires forall i :: 0 <= i < |p.lineage| ==> TrueLineage(log, p.lineage[i])
    ensures call.rotationSeq.Some? ==> call.req.sequence < call.rotationSeq.value
  {
    hide TrueRequest, FreshRotations, TrueLineage, EntriesOf;
    if call.rotationSeq.Some? { NeverSuperseded(c, log, p, call.req, call.rotationSeq.value); }
  }

  /** Rows and lineage a witness request adds are true if its own would be. */
  lemma WitnessAddsTruth(e: Env, p: Tables, call: Call, log: seq<Entry>)
    requires Sound(e, p) && LoadedFrom(p, call)
    requires forall i :: 0 <= i < |p.log| ==> TrueRow(e.crypto, log, p.log[i])
    requires forall i :: 0 <= i < |p.lineage| ==> TrueLineage(log, p.lineage[i])
    requires TrueRow(e.crypto, log, Row(call.req.devicePub, WitnessEntry(call.req.sequence, call.req.tip, call.now)))
    requires call.req.rotation.Some? &&
             LineageVerifies(e.crypto, call.req.rotation.value, call.req.devicePub, call.req.sequence, call.req.tip) ==>
      TrueLineage(log, Lineage(call.req.devicePub, call.req.rotation.value.oldKey, call.req.rotation.value.sequence))
    ensures var p' := Witness(e.crypto, p, call).0;
            && Sound(e, p')
            && (forall i :: 0 <= i < |p'.log| ==> TrueRow(e.crypto, log, p'.log[i]))
            && (forall i :: 0 <= i < |p'.lineage| ==> TrueLineage(log, p'.lineage[i]))
  {
    hide Witness, TrueRow, TrueLineage, LoadedFrom, Dated, EntriesOf, LineageVerifies, Revoked;
    WitnessKeeps(e, p, call);
    WitnessEffect(e.crypto, p, call);
    WitnessLineage(e.crypto, p, call);
  }

  lemma DeliverKeeps(t: Tools, parse: Clock, s: System, m: Move)
    requires ToolLaws(t) && InStep(t, parse, s) && m.Deliver? && Honest(t, parse, s, m)
    ensures InStep(t, parse, Next(t, parse, s, m))
  {
    hide EntryId, KeyAfter, CrossChecks, Consistent, WithinWidth, FreshRotations, WitnessVerifies, LineageVerifies,
         Sound, LoadedFrom, Witness, ToolLaws, TrueRow, TrueLineage, GenesisKey, Unforged, Owned;
    var c, log, call := t.crypto, s.device.log, Delivered(s, m);
    var q := call.req;
    DeliveredTrue(c, log, s, m);
    assert TrueRow(c, log, Row(q.devicePub, WitnessEntry(q.sequence, q.tip, call.now))) by { RequestRow(c, log, q, call.now); }
    if q.rotation.Some? && LineageVerifies(c, q.rotation.value, q.devicePub, q.sequence, q.tip) {
      RequestOwned(c, log, q);
      OwnRotationPlace(t, s.device, q.rotation.value, q.devicePub, q.sequence, q.tip);
      RotationLineage(log, q, q.rotation.value);
    }
    WitnessAddsTruth(Env(c, parse), s.p, call, log);
    if Witness(c, s.p, call).1.Granted? { BuiltReceipt(c, s.p, call); }
  }

  /**
   What a delivery does: the platform handles the signed request with the rotation sent along, at the time
   of delivery and under its id, and the receipt is kept exactly when one is granted.
   */
  lemma DeliverMeans(t: Tools, parse: Clock, s: System, m: Move)
    requires m.Deliver? && m.i < |s.signed|
    ensures var q := s.signed[m.i].(rotation := m.rotation);
            var (p', o), s' := Witness(t.crypto, s.p, Call(q, m.now, m.jti, m.loaded, m.rotationSeq)), Next(t, parse, s, m);
            && o == Answer(t, s, m) && s'.p == p' && s'.device == s.device && s'.signed == s.signed
            && (o.Refused? ==> s'.receipts == s.receipts)
            && (o.Granted? ==> s'.receipts == s.receipts + [Receipt(q.devicePub, q.sequence, q.tip)])
  {
    hide Witness;
    if Answer(t, s, m).Granted? { BuiltReceipt(t.crypto, s.p, Delivered(s, m)); }
  }

  lemma RequestRow(c: Crypto, log: seq<Entry>, q: WitnessRequest, now: Bytes)
    requires TrueRequest(c, log, q)
    ensures TrueRow(c, log, Row(q.devicePub, WitnessEntry(q.sequence, q.tip, now)))
  {
    hide WitnessVerifies, EntryId;
  }

  lemma RotationLineage(log: seq<Entry>, q: WitnessRequest, r: RotationRecord)
    requires OwnRotation(log, r, r.sequence) && r.oldKey == KeyAfter(GenesisKey(log), log, r.sequence)
    ensures TrueLineage(log, Lineage(q.devicePub, r.oldKey, r.sequence))
  {
    hide KeyAfter, Owned, GenesisKey;
  }

  lemma BuiltReceipt(c: Crypto, p: Tables, call: Call)
    requires Witness(c, p, call).1.Granted?
    ensures var r := Witness(c, p, call).1.receipt;
            r.devicePub == call.req.devicePub && r.sequence == call.req.sequence && r.tip == call.req.tip
  {
    hide Witness, Decide;
    GrantedMeans(c, p, call);
  }

  lemma ElsewhereKeeps(t: Tools, parse: Clock, s: System, ev: Event)
    requires InStep(t, parse, s) && Honest(t, parse, s, Elsewhere(ev))
    ensures InStep(t, parse, Next(t, parse, s, Elsewhere(ev)))
  {
    hide EntryId, KeyAfter, CrossChecks, Consistent, WithinWidth, FreshRotations, Sound, LoadedFrom, Witness, Revoke,
         Owned, GenesisKey, WitnessVerifies, LineageVerifies, Unforged;
    var e := Env(t.crypto, parse);
    StepKeeps(e, s.p, ev);
    match ev
    case WitnessEvent(call) =>
      ForeignRotation(t, s, call.req);
      WitnessAddsTruth(e, s.p, call, s.device.log);
    case RevokeEvent(key, at, epoch, now) => RevokeTouchesDevices(parse, s.p, key, at, epoch, now);
    case RegisterEvent(key) =>
  }

  /** Attached to somebody else's request, a rotation of the device adds no lineage. */
  lemma ForeignRotation(t: Tools, s: System, q: WitnessRequest)
    requires Consistent(t, s.device) && WithinWidth(s.device.log) && !Owned(s.device.log, q.devicePub)
    requires Unforged(t.crypto, s.device.log, q.rotation)
    ensures q.rotation.Some? && LineageVerifies(t.crypto, q.rotation.value, q.devicePub, q.sequence, q.tip) ==>
              !Owned(s.device.log, q.rotation.value.oldKey)
  {
    hide KeyAfter, GenesisKey, Consistent, WithinWidth, LineageVerifies, Unforged, OwnRotation;
    if q.rotation.Some? && LineageVerifies(t.crypto, q.rotation.value, q.devicePub, q.sequence, q.tip)
       && Owned(s.device.log, q.rotation.value.oldKey) {
      OwnRotationPlace(t, s.device, q.rotation.value, q.devicePub, q.sequence, q.tip);
      PlaceInLog(s.device.log, q.rotation.value, q.sequence);
    }
  }

  lemma PlaceInLog(log: seq<Entry>, r: RotationRecord, k: nat)
    requires OwnRotation(log, r, k)
    ensures k < |log|
  {
  }

  lemma RevokeTouchesDevices(parse: Clock, p: Tables, key: Bytes, at: Option<Bytes>, epoch: Option<nat>, now: Bytes)
    ensures var p' := Revoke(parse, p, key, at, epoch, now); p'.log == p.log && p'.lineage == p.lineage
  {
  }

  lemma MoveKeeps(t: Tools, parse: Clock, s: System, m: Move)
    requires ToolLaws(t) && InStep(t, parse, s) && Honest(t, parse, s, m) && WithinWidth(Next(t, parse, s, m).device.log)
    ensures InStep(t, parse, Next(t, parse, s, m))
  {
    hide InStep, Honest, ToolLaws, WithinWidth, Apply, Step, Witness, TipRequest;
    match m
    case Command(op) => CommandKeeps(t, parse, s, op);
    case Elsewhere(ev) => ElsewhereKeeps(t, parse, s, ev);
    case Sign(_, _, _) => SignKeeps(t, parse, s, m);
    case Deliver(_, _, _, _, _, _) => DeliverKeeps(t, parse, s, m);
  }

  // ── Whole runs ─────────────────────────────────────────────────────────────

  lemma MoveGrows(t: Tools, parse: Clock, s: System, m: Move)
    ensures s.device.log <= Next(t, parse, s, m).device.log && s.receipts <= Next(t, parse, s, m).receipts
  {
    hide Apply, Step, Witness, TipRequest;
    if m.Command? { StepGrows(t, s.device, m.op); }
  }

  lemma {:induction false} RunGrows(t: Tools, parse: Clock, s: System, moves: seq<Move>, s': System)
    requires HonestRun(t, parse, s, moves, s')
    ensures s.device.log <= s'.device.log && s.receipts <= s'.receipts
    decreases |moves|
  {
    hide Honest, Next;
    if moves != [] {
      MoveGrows(t, parse, s, moves[0]);
      RunGrows(t, parse, Next(t, parse, s, moves[0]), moves[1..], s');
    }
  }

  lemma WidthOfPrefix(log: seq<Entry>, longer: seq<Entry>)
    requires log <= longer && WithinWidth(longer)
    ensures WithinWidth(log)
  {
    hide RotationsIn;
    assert longer[..|log|] == log;
    PrefixWalk("", longer, |log|, |log|);
    RotationsGrow(longer, |log|, |longer|);
  }

  lemma {:induction false} HonestRunInStep(t: Tools, parse: Clock, s: System, moves: seq<Move>, s': System)
    requires ToolLaws(t) && InStep(t, parse, s) && HonestRun(t, parse, s, moves, s') && WithinWidth(s'.device.log)
    ensures InStep(t, parse, s')
    decreases |moves|
  {
    hide InStep, Honest, Next, ToolLaws, WithinWidth;
    if moves != [] {
      var mid := Next(t, parse, s, moves[0]);
      RunGrows(t, parse, mid, moves[1..], s');
      WidthOfPrefix(mid.device.log, s'.device.log);
      MoveKeeps(t, parse, s, moves[0]);
      HonestRunInStep(t, parse, mid, moves[1..], s');
    }
  }

  /**
   In every honest run, every delivery of a request the device ever signed gets the answer above; in
   particular a request for the current tip, with no rotation or a fitting one, is granted unless its key
   is revoked.
   */
  lemma HonestDeliveriesAnswered(t: Tools, parse: Clock, disk: map<Bytes, Folder>, moves: seq<Move>, s: System, m: Move)
    requires ToolLaws(t) && HonestRun(t, parse, Start(disk), moves, s) && WithinWidth(s.device.log)
    requires m.Deliver? && Honest(t, parse, s, m)
    ensures FairAnswer(t.crypto, s.device.log, s.p, Delivered(s, m).req, Answer(t, s, m))
    ensures var q := Delivered(s, m).req;
            q.sequence == |s.device.log| - 1 ==>
              && !Overtaken(s.p, q)
              && (FittingRotation(t.crypto, s.device.log, q) && !Revoked(s.p, q.devicePub) ==> Answer(t, s, m).Granted?)
  {
    hide InStep, Honest, ToolLaws, WithinWidth, Answer, Overtaken, Delivered, FittingRotation, Revoked;
    StartInStep(t, parse, disk);
    HonestRunInStep(t, parse, Start(disk), moves, s);
    DeliveryAnswered(t, parse, s, m);
    HonestIndex(t, parse, s, m);
    TipNotOvertaken(t, parse, s, m);
  }

  lemma HonestIndex(t: Tools, parse: Clock, s: System, m: Move)
    requires m.Deliver? && Honest(t, parse, s, m)
    ensures m.i < |s.signed|
  {
    hide LoadedFrom;
  }

  /** Nothing of the device's is witnessed beyond its newest entry. */
  lemma TipNotOvertaken(t: Tools, parse: Clock, s: System, m: Move)
    requires InStep(t, parse, s) && m.Deliver? && m.i < |s.signed|
    ensures var q := Delivered(s, m).req;
            q.sequence == |s.device.log| - 1 ==> !Overtaken(s.p, q)
  {
    hide EntryId, KeyAfter, CrossChecks, Consistent, WithinWidth, FreshRotations, WitnessVerifies, Sound, TrueRow, TrueLineage,
         GenesisKey, EntriesOf;
    var q := Delivered(s, m).req;
    DeliveredTrue(t.crypto, s.device.log, s, m);
    forall e | e in EntriesOf(s.p.log, q.devicePub) ensures e.sequence < |s.device.log| {
      RowsAgree(t.crypto, s.device.log, s.p.log, q, e);
    }
  }

  /** What one granted delivery does to a request of the same key for an earlier entry not witnessed yet. */
  lemma LaterWitnessOvertakes(t: Tools, parse: Clock, s: System, m: Move, q: WitnessRequest)
    requires ToolLaws(t) && InStep(t, parse, s) && m.Deliver? && Honest(t, parse, s, m) && Answer(t, s, m).Granted?
    requires var later := Delivered(s, m).req; q.devicePub == later.devicePub && q.sequence < later.sequence
    requires forall e :: e in EntriesOf(s.p.log, q.devicePub) ==> e.sequence != q.sequence
    ensures Overtaken(Next(t, parse, s, m).p, q)
  {
    hide Witness, Decide, EntriesOf, LoadedFrom, Sound, TrueRow, TrueLineage, TrueRequest, Consistent, WithinWidth, FreshRotations,
         CrossChecks, ToolLaws, GenesisKey, Runs, BuildReceipt;
    var c, call := t.crypto, Delivered(s, m);
    var p', later := Next(t, parse, s, m).p, call.req;
    GrantedMeans(c, s.p, call);
    var row := Row(later.devicePub, WitnessEntry(later.sequence, later.tip, call.now));
    EntriesAppend(s.p.log, row, q.devicePub);
    var i := ReceiptLinks(Env(c, parse), s.p, call);
    BuiltReceipt(c, s.p, call);
    assert EntriesOf(p'.log, q.devicePub)[i] in EntriesOf(p'.log, q.devicePub);
  }

  /**
   A request signed for offline submission, then another archive, and the request for that delivered
   first: when the earlier request arrives, it is refused as a rollback.
   */
  lemma OfflineRequestOvertaken(t: Tools, parse: Clock, s: System, secret: Bytes, at: Bytes, op: Op, later: Bytes, m: Move, late: Move)
    requires ToolLaws(t) && InStep(t, parse, s) && TipRequest(t.crypto, s.device, secret, false, at).Some?
    requires !Revoked(s.p, t.crypto.publicOf(secret))
    requires forall e :: e in EntriesOf(s.p.log, t.crypto.publicOf(secret)) ==> e.sequence != |s.device.log| - 1
    requires op.WrapOp? && op.args.secret == secret && |Apply(t, s.device, op).log| > |s.device.log|
    requires WithinWidth(Apply(t, s.device, op).log)
    requires var n := |s.signed|;
             && m.Deliver? && m.i == n + 1 && m.rotation.None? && late.Deliver? && late.i == n && late.rotation.None?
    requires var s3 := Prepared(t, parse, s, secret, at, op, later);
             Honest(t, parse, s3, m) && Honest(t, parse, Next(t, parse, s3, m), late)
    ensures var s3 := Prepared(t, parse, s, secret, at, op, later);
            && HonestRun(t, parse, s, [Sign(secret, false, at), Command(op), Sign(secret, false, later)], s3)
            && m.i < |s3.signed| && Answer(t, s3, m).Granted?
            && late.i < |Next(t, parse, s3, m).signed| && Answer(t, Next(t, parse, s3, m), late) == Refused(IsRollback)
  {
    hide Apply, InStep, ToolLaws, Honest, Witness, WithinWidth, EntriesOf, Revoked, EntryId, KeyAfter, GenesisKey, CreateWitness,
         Overtaken, FittingRotation;
    var s3 := Prepared(t, parse, s, secret, at, op, later);
    PreparedRequests(t, parse, s, secret, at, op, later);
    HonestIndex(t, parse, s3, m);
    DeliveryAnswered(t, parse, s3, m);
    TipNotOvertaken(t, parse, s3, m);
    NoRotationFits(t.crypto, s3.device.log, Delivered(s3, m).req);
    var q := s3.signed[late.i];
    LaterWitnessOvertakes(t, parse, s3, m, q.(rotation := None));
    DeliverKeeps(t, parse, s3, m);
    DeliveryAnswered(t, parse, Next(t, parse, s3, m), late);
  }

  /** A request signed, another archive wrapped, and a request signed for that. */
  function Prepared(t: Tools, parse: Clock, s: System, secret: Bytes, at: Bytes, op: Op, later: Bytes): System {
    Next(t, parse, Next(t, parse, Next(t, parse, s, Sign(secret, false, at)), Command(op)), Sign(secret, false, later))
  }

  lemma PreparedRequests(t: Tools, parse: Clock, s: System, secret: Bytes, at: Bytes, op: Op, later: Bytes)
    requires ToolLaws(t) && InStep(t, parse, s) && TipRequest(t.crypto, s.device, secret, false, at).Some?
    requires op.WrapOp? && op.args.secret == secret && |Apply(t, s.device, op).log| > |s.device.log|
    requires WithinWidth(Apply(t, s.device, op).log)
    ensures var s3 := Prepared(t, parse, s, secret, at, op, later);
            && InStep(t, parse, s3) && s3.p == s.p && |s3.signed| == |s.signed| + 2
            && HonestRun(t, parse, s, [Sign(secret, false, at), Command(op), Sign(secret, false, later)], s3)
            && var q, q' := s3.signed[|s.signed|], s3.signed[|s.signed| + 1];
               && q.devicePub == q'.devicePub == t.crypto.publicOf(secret)
               && q.sequence == |s.device.log| - 1 && q'.sequence == |s.device.log| == |s3.device.log| - 1
  {
    hide Apply, InStep, ToolLaws, Witness, WithinWidth, EntryId, KeyAfter, GenesisKey, Step, WitnessBytes;
    var a, b, c := Sign(secret, false, at), Command(op), Sign(secret, false, later);
    var s1 := Next(t, parse, s, a);
    var s2 := Next(t, parse, s1, b);
    var s3 := Next(t, parse, s2, c);
    InStepDevice(t, parse, s);
    LawfulTools(t);
    TipRequestShape(t, s.device, secret, false, at);
    SignKeeps(t, parse, s, a);
    MoveKeeps(t, parse, s1, b);
    SignKeeps(t, parse, s2, c);
    InStepDevice(t, parse, s2);
    StepGrows(t, s.device, op);
    WrapKeepsSigner(t, s.device, op);
    TipState(t, s2.device);
    var moves := [a, b, c];
    assert moves[1..][1..][1..] == [];
    assert HonestRun(t, parse, s2, moves[1..][1..], s3);
    assert HonestRun(t, parse, s1, moves[1..], s3);
  }

  lemma InStepDevice(t: Tools, parse: Clock, s: System)
    requires InStep(t, parse, s)
    ensures Consistent(t, s.device) && WithinWidth(s.device.log)
  {
    hide Consistent, Sound, FreshRotations, WithinWidth, KeyAfter, EntryId, GenesisKey, TrueRow, TrueLineage, TrueRequest;
  }

  lemma WrapKeepsSigner(t: Tools, d: Device, op: Op)
    requires op.WrapOp? && |Apply(t, d, op).log| > |d.log|
    ensures var d' := Apply(t, d, op); d'.state.Some? && d'.state.value.devicePub == t.crypto.publicOf(op.args.secret)
  {
    hide Wrapped, EntryId, EndsWithSeal, ChunksOnly;
  }

  /** The device's own commands among the moves. */
  function CommandsOf(moves: seq<Move>): seq<Op> {
    if moves == [] then [] else (if moves[0].Command? then [moves[0].op] else []) + CommandsOf(moves[1..])
  }

  lemma NextDevice(t: Tools, parse: Clock, s: System, m: Move)
    ensures Next(t, parse, s, m).device == if m.Command? then Apply(t, s.device, m.op) else s.device
  {
    hide Apply, Step, Witness, TipRequest;
  }

  lemma {:induction false} DeviceRuns(t: Tools, parse: Clock, disk: map<Bytes, Folder>, s: System, moves: seq<Move>, s': System, ops: seq<Op>)
    requires HonestRun(t, parse, s, moves, s') && s.device == Run(t, disk, ops)
    ensures s'.device == Run(t, disk, ops + CommandsOf(moves))
    decreases |moves|
  {
    hide Honest, Apply, Next, Run;
    if moves == [] {
      assert ops + CommandsOf(moves) == ops;
    } else {
      var m := moves[0];
      var done := if m.Command? then ops + [m.op] else ops;
      NextDevice(t, parse, s, m);
      if m.Command? { RunOneMore(t, disk, ops, m.op); }
      DeviceRuns(t, parse, disk, Next(t, parse, s, m), moves[1..], s', done);
      assert ops + CommandsOf(moves) == done + CommandsOf(moves[1..]);
    }
  }

  /**
   Every receipt granted at any point of an honest run, for a request delivered whenever, passes the
   cross-check of the final chronicle, read back from disk in any order, as long as the device's own
   commands were orderly.
   */
  lemma ReceiptsCrossCheck(t: Tools, parse: Clock, disk: map<Bytes, Folder>, before: seq<Move>, s: System, after: seq<Move>, s': System,
                           i: nat, paths: seq<Bytes>)
    requires ToolLaws(t) && NoRotations(disk)
    requires HonestRun(t, parse, Start(disk), before, s) && HonestRun(t, parse, s, after, s')
    requires Orderly(t, disk, CommandsOf(before) + CommandsOf(after))
    requires i < |s.receipts| && Listing(s'.device, paths)
    ensures PathsAccepted(t, GenesisKey(s'.device.log), s'.device.disk, paths, Some(s.receipts[i]))
  {
    hide InStep, ToolLaws, WithinWidth, CallsOk, HonestRun, Accepted, CrossChecks, SortBySeq, GenesisKey, Run, NoRotations,
         Unrepeated, Unspoiled, OnDisk, Consistent, Listing, ReadsAs;
    var ops := CommandsOf(before) + CommandsOf(after);
    var d, r := s'.device, s.receipts[i];
    NewRun(t, disk);
    DeviceRuns(t, parse, disk, Start(disk), before, s, []);
    assert [] + CommandsOf(before) == CommandsOf(before);
    DeviceRuns(t, parse, disk, s, after, s', CommandsOf(before));
    StartInStep(t, parse, disk);
    RunGrows(t, parse, s, after, s');
    WidthOfPrefix(s.device.log, d.log);
    HonestRunInStep(t, parse, Start(disk), before, s);
    HonestRunInStep(t, parse, s, after, s');
    assert s'.receipts[i] == r;
    IssuedChecks(t, parse, s', i);
    NowAccepted(t, disk, ops);
    var entries := ListingReads(t, d, paths);
    ReadAccepted(t, d, paths, entries);
    NowCrossChecks(t, d, r);
  }

  lemma NewRun(t: Tools, disk: map<Bytes, Folder>)
    ensures Run(t, disk, []) == New(disk)
  {
  }

  lemma NowCrossChecks(t: Tools, d: Device, r: Receipt)
    requires OnDisk(t, d) && CrossChecks(t.crypto, GenesisKey(d.log), d.log, r)
    ensures CrossChecks(t.crypto, GenesisKey(d.log), NowLog(t, d), r)
  {
    hide OnDisk, GenesisKey, EntryId, KeyAfter, SameHeads;
    NowHeads(t, d);
    HeadsWalk(GenesisKey(d.log), d.log, NowLog(t, d), r.sequence + 1);
    HeadsId(t.crypto, d.log, NowLog(t, d), r.sequence);
  }

  lemma IssuedChecks(t: Tools, parse: Clock, s: System, i: nat)
    requires InStep(t, parse, s) && i < |s.receipts|
    ensures CrossChecks(t.crypto, GenesisKey(s.device.log), s.device.log, s.receipts[i]) && s.device.log != []
  {
    hide Consistent, Sound, FreshRotations, WithinWidth, KeyAfter, EntryId, GenesisKey;
  }
}
