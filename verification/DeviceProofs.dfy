/**
 Every run of the producers yields a chronicle the independent verifier accepts, in any input order,
 up to the width of its counters; and the state file always holds what the verifier's walk ends with.
 */
module DeviceProofs {
  import opened Text
  import opened Primitives
  import opened Records
  import opened Archive
  import opened Wrap
  import opened WrapProofs
  import opened Chronicle
  import opened ChronicleProofs
  import opened Device

  /** The key that signed the first entry. */
  function GenesisKey(log: seq<Entry>): Bytes {
    if log != [] && log[0].Content? then log[0].m.device.publicKey else ""
  }

  /** Entry `k` as the producers write it, its counters reduced to their machine width. */
  ghost predicate Made(t: Tools, g: Bytes, log: seq<Entry>, k: nat)
    requires k < |log|
  {
    var key, epoch := KeyAfter(g, log, k), U32(RotationsIn(log, k));
    && VersionOf(log[k]) == FORMAT_VERSION
    && SeqOf(log[k]) == Some(U64(k))
    && (k == 0 ==> log[0].Content?)
    && PrevOf(log[k]) == (if k == 0 then None else Some(EntryId(t.crypto, log[k - 1])))
    && match log[k]
       case Content(m, _) =>
         && m.device.publicKey == key && EpochOf(m) == epoch
         && m.signature.Some? && t.crypto.verifies(key, ManifestBytes(m), m.signature.value)
       case Rotation(r) =>
         r.oldKey == key && r.oldEpoch == epoch && (RotationVerifies(t.crypto, r) <==> epoch + 1 < U32_LIMIT)
  }

  /** The state the walk over `log` would leave behind. */
  function HeadOf(c: Crypto, g: Bytes, log: seq<Entry>): Option<State> {
    var n := |log|;
    if n == 0 then None
    else Some(State(KeyAfter(g, log, n), U64(n - 1), EntryId(c, log[n - 1]), U32(RotationsIn(log, n))))
  }

  /** What every command keeps. */
  ghost predicate Consistent(t: Tools, d: Device) {
    var g := GenesisKey(d.log);
    && d.state == HeadOf(t.crypto, g, d.log)
    && forall k :: 0 <= k < |d.log| ==> Made(t, g, d.log, k)
  }

  lemma MadeKept(t: Tools, g: Bytes, log: seq<Entry>, e: Entry, k: nat)
    requires k < |log| && Made(t, g, log, k)
    ensures Made(t, g, log + [e], k)
  {
    hide EntryId, ManifestBytes, RotationVerifies;
    assert (log + [e])[..|log|] == log;
    PrefixWalk(g, log + [e], |log|, k);
  }

  /** The link a consistent state resolves to continues the log. */
  lemma LinkContinues(t: Tools, d: Device, signer: Bytes)
    requires Consistent(t, d) && ResolveChronicle(d.state, signer).Some?
    ensures var n, g := |d.log|, if d.log == [] then signer else GenesisKey(d.log);
            && KeyAfter(g, d.log, n) == signer
            && ResolveChronicle(d.state, signer).value ==
               Link(U64(n), if n == 0 then None else Some(EntryId(t.crypto, d.log[n - 1])), U32(RotationsIn(d.log, n)))
  {
    hide EntryId, Made;
    if d.log != [] { U64Step(|d.log| - 1); }
  }

  /**
   A wrap completes an archive exactly for a `.seal` output, the identity the state file names or none yet,
   and arguments that wrap; and the archive takes the place after the last entry.
   */
  lemma WrapOutcomeMeans(t: Tools, d: Device, a: WrapArgs, payload: Bytes, out: Bytes)
    ensures var here := if out in d.disk then d.disk[out].dir else Dir(None, None, map[]);
            var link := match d.state
                        case None => Link(0, None, 0)
                        case Some(st) => Link(U64(st.sequence + 1), Some(st.tip), st.keyEpoch);
            WrapOutcome(t, d, a, payload, out) ==
              if && |out| >= 5 && out[|out| - 5..] == ".seal"
                 && (d.state.Some? ==> d.state.value.devicePub == t.crypto.publicOf(a.secret))
              then Wrapped(t, a, Some(link), payload, here) else None
  {
    hide Wrapped;
  }

  /**
   A wrap that fails leaves state, history and every other directory alone. What it leaves of its output is
   untouched for an output, a chunk size or a payload it does not take, and else has the chunks written over
   what was there.
   */
  lemma WrapFails(t: Tools, d: Device, a: WrapArgs, payload: Bytes, out: Bytes)
    requires WrapOutcome(t, d, a, payload, out).None?
    ensures var d' := DoWrap(t, d, a, payload, out);
            && d'.state == d.state && d'.log == d.log && d'.names == d.names
            && (if |out| < 5 || out[|out| - 5..] != ".seal" || a.chunkSize > 256 * 1024 * 1024 || payload == "" then d'.disk == d.disk
                else
                  && d'.disk.Keys == d.disk.Keys + {out} && (forall name <- d.disk :: name != out ==> d'.disk[name] == d.disk[name])
                  && var before, after := if out in d.disk then d.disk[out] else NO_FOLDER, d'.disk[out];
                     && after.rotation == before.rotation && after.dir.manifest == before.dir.manifest && after.dir.sig == before.dir.sig
                     && after.dir.chunks == Written(before.dir.chunks, StoredChunks(t.crypto, a, Pieces(payload, a.chunkSize))))
  {
    hide WrapOutcome, Written, Pieces;
  }

  lemma U64Step(n: nat)
    ensures U64(U64(n) + 1) == U64(n + 1)
  {
  }

  /** The manifest a wrap signs, in the terms the verifier asks about. */
  lemma WrappedEntry(t: Tools, a: WrapArgs, link: Link, payload: Bytes, existing: Dir, m: Manifest, dir: Dir)
    requires ToolLaws(t) && Wrapped(t, a, Some(link), payload, existing) == Some((m, dir))
    ensures m.version == FORMAT_VERSION && m.sequence == Some(link.sequence) && m.prev == link.prev
    ensures m.device.publicKey == t.crypto.publicOf(a.secret) && EpochOf(m) == link.keyEpoch
    ensures m.signature.Some? && t.crypto.verifies(m.device.publicKey, ManifestBytes(m), m.signature.value)
  {
    hide Wrapped, FinalManifest, ManifestBytes;
    WrappedShape(t, a, Some(link), payload, existing, m, dir);
    var stored := StoredOf(t, a, payload);
    FinalManifestShape(t, a, Some(link), stored, m);
    var pre := Unsigned(t, a, Some(link), SegmentsFor(t.crypto, a, stored));
    assert m.device == pre.device && m.version == pre.version && m.sequence == pre.sequence && m.prev == pre.prev;
    assert t.crypto.verifies(t.crypto.publicOf(a.secret), ManifestBytes(m), t.crypto.sign(a.secret, ManifestBytes(m)));
  }

  lemma Appended(t: Tools, d: Device, g: Bytes, e: Entry, d': Device)
    requires Consistent(t, d) && (d.log != [] ==> g == GenesisKey(d.log)) && (d.log == [] ==> e.Content? && g == e.m.device.publicKey)
    requires Made(t, g, d.log + [e], |d.log|)
    requires d'.log == d.log + [e] && d'.state == HeadOf(t.crypto, g, d.log + [e])
    ensures Consistent(t, d')
  {
    hide Made, HeadOf;
    forall k | 0 <= k < |d.log| ensures Made(t, g, d.log + [e], k) { MadeKept(t, g, d.log, e, k); }
  }

  lemma WalkExtended(g: Bytes, log: seq<Entry>, e: Entry)
    ensures var n := |log|;
            && KeyAfter(g, log + [e], n) == KeyAfter(g, log, n)
            && RotationsIn(log + [e], n) == RotationsIn(log, n)
            && KeyAfter(g, log + [e], n + 1) == (if e.Rotation? then e.r.newKey else KeyAfter(g, log, n))
            && RotationsIn(log + [e], n + 1) == RotationsIn(log, n) + if e.Rotation? then 1 else 0
  {
    assert (log + [e])[..|log|] == log;
    PrefixWalk(g, log + [e], |log|, |log|);
  }

  lemma WrapKeeps(t: Tools, d: Device, a: WrapArgs, payload: Bytes, out: Bytes)
    requires ToolLaws(t) && Consistent(t, d)
    ensures Consistent(t, DoWrap(t, d, a, payload, out))
  {
    hide EntryId, Wrapped, ManifestBytes, Consistent, ToolLaws, FolderAt, EndsWithSeal;
    var signer := t.crypto.publicOf(a.secret);
    var outcome := WrapOutcome(t, d, a, payload, out);
    if outcome.None? {
      SameHistory(t, d, DoWrap(t, d, a, payload, out));
    } else {
      var link, existing := ResolveChronicle(d.state, signer).value, FolderAt(d, out).dir;
      var (m, dir) := outcome.value;
      var e, n := Content(m, dir.chunks), |d.log|;
      var g := if d.log == [] then signer else GenesisKey(d.log);
      LinkContinues(t, d, signer);
      WrappedEntry(t, a, link, payload, existing, m, dir);
      WalkExtended(g, d.log, e);
      Appended(t, d, g, e, DoWrap(t, d, a, payload, out));
    }
  }

  /** Consistency is about the state and the history, not about the directories. */
  lemma SameHistory(t: Tools, d: Device, d': Device)
    requires Consistent(t, d) && d'.state == d.state && d'.log == d.log
    ensures Consistent(t, d')
  {
    hide Made, HeadOf, GenesisKey;
  }

  lemma RekeyKeeps(t: Tools, d: Device, oldSecret: Bytes, newSecret: Bytes, newAgreement: Bytes, rotatedAt: Bytes, out: Bytes)
    requires ToolLaws(t) && Consistent(t, d)
    ensures Consistent(t, DoRekey(t, d, oldSecret, newSecret, newAgreement, rotatedAt, out))
  {
    hide EntryId, RotationVerifies, RotationBytes, Consistent, ToolLaws, KeyAfter, RotationsIn, GenesisKey;
    LawfulTools(t);
    var after := DoRekey(t, d, oldSecret, newSecret, newAgreement, rotatedAt, out);
    if RekeyOutcome(t, d, oldSecret, newSecret, newAgreement, rotatedAt, out).Some? {
      var c, st, n, g := t.crypto, d.state.value, |d.log|, GenesisKey(d.log);
      var signer := c.publicOf(oldSecret);
      LinkContinues(t, d, signer);
      var r := CreateRotation(c, oldSecret, st.keyEpoch, newSecret, newAgreement, U64(n), st.tip, rotatedAt);
      CreatedRotationVerifies(c, oldSecret, st.keyEpoch, newSecret, newAgreement, U64(n), st.tip, rotatedAt);
      U32Step(RotationsIn(d.log, n));
      WalkExtended(g, d.log, Rotation(r));
      Appended(t, d, g, Rotation(r), after);
    }
  }

  /** Whatever the commands, and however many fail, the state and the log stay consistent. */
  lemma {:induction false} RunKeeps(t: Tools, disk: map<Bytes, Folder>, ops: seq<Op>)
    requires ToolLaws(t)
    ensures Consistent(t, Run(t, disk, ops))
  {
    hide Consistent, DoWrap, DoRekey, ToolLaws;
    if ops == [] {
      NewConsistent(t, disk);
    } else {
      RunKeeps(t, disk, ops[..|ops| - 1]);
      CommandKeepsConsistent(t, Run(t, disk, ops[..|ops| - 1]), ops[|ops| - 1]);
    }
  }

  lemma RunOneMore(t: Tools, disk: map<Bytes, Folder>, ops: seq<Op>, op: Op)
    ensures Run(t, disk, ops + [op]) == Apply(t, Run(t, disk, ops), op)
  {
    hide Apply;
    assert (ops + [op])[..|ops|] == ops;
  }

  lemma CommandKeepsConsistent(t: Tools, d: Device, op: Op)
    requires ToolLaws(t) && Consistent(t, d)
    ensures Consistent(t, Apply(t, d, op))
  {
    hide Consistent, DoWrap, DoRekey, ToolLaws;
    match op
    case WrapOp(a, payload, out) => WrapKeeps(t, d, a, payload, out);
    case RekeyOp(o, n, ka, at, out) => RekeyKeeps(t, d, o, n, ka, at, out);
  }

  lemma NewConsistent(t: Tools, disk: map<Bytes, Folder>)
    ensures Consistent(t, New(disk))
  {
  }

  // ── Content ────────────────────────────────────────────────────────────────

  /** A wrap call whose archive validates and reads back as signed: see `WrapProofs.WrapValidates`. */
  predicate CallOk(t: Tools, a: WrapArgs, payload: Bytes, existing: Dir) {
    a.chunkSize > 0 && NoStale(existing, ChunkCount(a, payload)) && FieldsValid(t, a, None) && AsPrinted(t, a)
  }

  /** Every wrap of the run that succeeds was called with arguments, and on a directory, that make its archive valid. */
  predicate CallsOk(t: Tools, disk: map<Bytes, Folder>, ops: seq<Op>) {
    ops == [] ||
    (var before, op := ops[..|ops| - 1], ops[|ops| - 1];
     var d := Run(t, disk, before);
     && CallsOk(t, disk, before)
     && (op.WrapOp? && WrapOutcome(t, d, op.args, op.payload, op.out).Some? ==>
           CallOk(t, op.args, op.payload, FolderAt(d, op.out).dir)))
  }

  predicate ContentsOk(t: Tools, log: seq<Entry>) {
    forall k :: 0 <= k < |log| ==> log[k].Content? ==> ContentOk(t, log[k].m, log[k].chunks)
  }

  /** Every manifest written reads back as the one that was signed. */
  predicate Legible(t: Tools, log: seq<Entry>) {
    forall k :: 0 <= k < |log| ==> log[k].Content? ==> ReadBack(t, log[k].m) == Some(log[k].m)
  }

  lemma WrappedContentOk(t: Tools, a: WrapArgs, link: Link, payload: Bytes, existing: Dir, m: Manifest, dir: Dir)
    requires ToolLaws(t) && Wrapped(t, a, Some(link), payload, existing) == Some((m, dir))
    ensures ContentOk(t, m, dir.chunks) && ReadBack(t, m) == Some(m) <==>
            CallOk(t, a, payload, existing) && ChronicleFieldsValid(Some(link.sequence), link.prev)
  {
    hide Wrapped, ContentOk, NoStale, ReadManifest, ManifestBytes, ReadBack, AsPrinted, FinalManifest, Written, ChronicleFieldsValid;
    WrappedShape(t, a, Some(link), payload, existing, m, dir);
    WrappedReadBack(t, a, Some(link), StoredOf(t, a, payload), m);
    WrapValidates(t, a, Some(link), payload, existing, m, dir);
  }

  lemma LinkIsValid(t: Tools, d: Device, signer: Bytes)
    requires HashLaws(t.crypto) && Consistent(t, d) && ResolveChronicle(d.state, signer).Some? && |d.log| < U64_LIMIT
    ensures var link := ResolveChronicle(d.state, signer).value; ChronicleFieldsValid(Some(link.sequence), link.prev)
  {
    hide Consistent, Canonical, IsArchiveId, ArchiveId;
    LinkContinues(t, d, signer);
    if d.log != [] { ArchiveIdShape(t.crypto.hash(Canonical(d.log[|d.log| - 1]))); }
  }

  lemma ContentsExtended(t: Tools, log: seq<Entry>, e: Entry)
    ensures ContentsOk(t, log + [e]) <==> ContentsOk(t, log) && (e.Content? ==> ContentOk(t, e.m, e.chunks))
    ensures Legible(t, log + [e]) <==> Legible(t, log) && (e.Content? ==> ReadBack(t, e.m) == Some(e.m))
  {
    hide ContentOk, ReadBack;
    var longer := log + [e];
    assert longer[|log|] == e;
    assert forall k :: 0 <= k < |log| ==> longer[k] == log[k];
    if ContentsOk(t, longer) {
      forall k | 0 <= k < |log| ensures log[k].Content? ==> ContentOk(t, log[k].m, log[k].chunks) {
        assert longer[k] == log[k];
      }
    }
    if Legible(t, longer) {
      forall k | 0 <= k < |log| ensures log[k].Content? ==> ReadBack(t, log[k].m) == Some(log[k].m) {
        assert longer[k] == log[k];
      }
    }
  }

  lemma StepGrows(t: Tools, d: Device, op: Op)
    ensures var d' := Apply(t, d, op); d'.log == d.log || (|d'.log| == |d.log| + 1 && d'.log == d.log + [d'.log[|d.log|]])
    ensures var d' := Apply(t, d, op); |d'.log| > |d.log| ==> (op.WrapOp? <==> d'.log[|d.log|].Content?)
  {
    hide Wrapped, CreateRotation, EntryId, ResolveChronicle, FolderAt, EndsWithSeal;
  }

  /** The archives of a run validate and read back as signed, exactly when its calls were well formed. */
  lemma {:induction false} ContentsAreCalls(t: Tools, disk: map<Bytes, Folder>, ops: seq<Op>)
    requires ToolLaws(t) && |Run(t, disk, ops).log| <= U64_LIMIT
    ensures var log := Run(t, disk, ops).log; ContentsOk(t, log) && Legible(t, log) <==> CallsOk(t, disk, ops)
  {
    hide ContentOk, Consistent, CallOk, ToolLaws, Wrapped, EntryId, ChronicleFieldsValid, CreateRotation, ContentsOk,
         FolderAt, EndsWithSeal, Legible, ReadBack;
    if ops == [] {
      EmptyContents(t);
    } else {
      var before, op := ops[..|ops| - 1], ops[|ops| - 1];
      var d, d' := Run(t, disk, before), Run(t, disk, ops);
      StepGrows(t, d, op);
      ContentsAreCalls(t, disk, before);
      if |d'.log| > |d.log| {
        var e := d'.log[|d.log|];
        ContentsExtended(t, d.log, e);
        if op.WrapOp? {
          RunKeeps(t, disk, before);
          var signer := t.crypto.publicOf(op.args.secret);
          var link := ResolveChronicle(d.state, signer).value;
          var (m, dir) := WrapOutcome(t, d, op.args, op.payload, op.out).value;
          LawfulTools(t);
          LinkIsValid(t, d, signer);
          WrappedContentOk(t, op.args, link, op.payload, FolderAt(d, op.out).dir, m, dir);
        }
      }
    }
  }

  lemma LawfulTools(t: Tools)
    requires ToolLaws(t)
    ensures HashLaws(t.crypto) && SignatureLaws(t.crypto)
  {
  }

  lemma EmptyContents(t: Tools)
    ensures ContentsOk(t, []) && Legible(t, [])
  {
  }

  // ── Acceptance ─────────────────────────────────────────────────────────────

  lemma {:induction false} RotationsGrow(log: seq<Entry>, j: nat, k: nat)
    requires j <= k <= |log|
    ensures RotationsIn(log, j) <= RotationsIn(log, k)
    decreases k
  {
    if j < k { RotationsGrow(log, j, k - 1); }
  }

  lemma {:induction false} RotationNumber(log: seq<Entry>, n: nat, target: nat) returns (k: nat)
    requires n <= |log| && target < RotationsIn(log, n)
    ensures k < n && log[k].Rotation? && RotationsIn(log, k) == target
    decreases n
  {
    if RotationsIn(log, n - 1) <= target {
      k := n - 1;
    } else {
      k := RotationNumber(log, n - 1, target);
    }
  }

  /** Below the counters' limits an entry is accepted as soon as its content is. */
  lemma MadeIsAccepted(t: Tools, g: Bytes, log: seq<Entry>, k: nat)
    requires k < |log| <= U64_LIMIT && Made(t, g, log, k)
    requires RotationsIn(log, k + 1) < U32_LIMIT
    requires log[k].Content? ==> ContentOk(t, log[k].m, log[k].chunks)
    ensures Placed(t.crypto, log, k) && Authorized(t, g, log, k)
  {
    hide EntryId, ManifestBytes, RotationVerifies, ContentOk, KeyAfter;
    assert RotationsIn(log, k) <= RotationsIn(log, k + 1);
    hide RotationsIn;
  }

  /** The wrapped counters show: the entry past either limit is refused. */
  lemma OverflowRefused(t: Tools, g: Bytes, log: seq<Entry>)
    requires Accepted(t, g, log) && forall k :: 0 <= k < |log| ==> Made(t, g, log, k)
    ensures |log| <= U64_LIMIT && RotationsIn(log, |log|) < U32_LIMIT
  {
    hide EntryId, ManifestBytes, RotationVerifies, ContentOk, Authorized;
    var n := |log|;
    assert Placed(t.crypto, log, n - 1) && Made(t, g, log, n - 1);
    if RotationsIn(log, n) >= U32_LIMIT {
      var k := RotationNumber(log, n, U32_LIMIT - 1);
      assert Made(t, g, log, k);
      RotationIsVerified(t, g, log, k);
    }
  }

  lemma RotationIsVerified(t: Tools, g: Bytes, log: seq<Entry>, k: nat)
    requires k < |log| && Accepted(t, g, log) && log[k].Rotation?
    ensures RotationVerifies(t.crypto, log[k].r)
  {
    hide Placed, RotationVerifies, ManifestBytes, ContentOk;
    assert Authorized(t, g, log, k);
  }

  lemma AcceptedContents(t: Tools, g: Bytes, log: seq<Entry>)
    requires Accepted(t, g, log)
    ensures ContentsOk(t, log)
  {
    hide Placed, Authorized, ContentOk;
    forall k | 0 <= k < |log| && log[k].Content? ensures ContentOk(t, log[k].m, log[k].chunks) {
      EpochPresent(t, g, log, k);
    }
  }

  /** The counters a run used stayed within their machine width. */
  predicate WithinWidth(log: seq<Entry>) {
    |log| <= U64_LIMIT && RotationsIn(log, |log|) < U32_LIMIT
  }

  /**
   Every run of wraps and rekeys on a new device writes entries that read back as signed and that the
   verifier accepts for the genesis key, exactly when the run's wrap calls were well formed and its
   counters did not overflow.
   */
  lemma RunAccepted(t: Tools, disk: map<Bytes, Folder>, ops: seq<Op>)
    requires ToolLaws(t) && Run(t, disk, ops).log != []
    ensures var log := Run(t, disk, ops).log;
            Accepted(t, GenesisKey(log), log) && Legible(t, log) <==> CallsOk(t, disk, ops) && WithinWidth(log)
  {
    hide Run, HeadOf, RotationsIn, Made, Placed, Authorized, CallsOk, ToolLaws, ContentsOk, GenesisKey, Legible;
    var d := Run(t, disk, ops);
    var log, g := d.log, GenesisKey(d.log);
    RunKeeps(t, disk, ops);
    if Accepted(t, g, log) {
      OverflowRefused(t, g, log);
      AcceptedContents(t, g, log);
      ContentsAreCalls(t, disk, ops);
    }
    if CallsOk(t, disk, ops) && WithinWidth(log) {
      ContentsAreCalls(t, disk, ops);
      forall k | 0 <= k < |log| ensures Placed(t.crypto, log, k) && Authorized(t, g, log, k) {
        RotationsGrow(log, k + 1, |log|);
        ContentAt(t, log, k);
        MadeIsAccepted(t, g, log, k);
      }
    }
  }

  lemma ContentAt(t: Tools, log: seq<Entry>, k: nat)
    requires ContentsOk(t, log) && k < |log|
    ensures log[k].Content? ==> ContentOk(t, log[k].m, log[k].chunks)
  {
    hide ContentOk;
  }

  lemma MadePermuted(t: Tools, g: Bytes, log: seq<Entry>, other: seq<Entry>)
    requires Accepted(t, g, other) && multiset(other) == multiset(log)
    requires forall k :: 0 <= k < |log| ==> Made(t, GenesisKey(log), log, k)
    ensures other == log
  {
    hide Made, Authorized, Accepted, GenesisKey;
    var n := |other|;
    assert |multiset(other)| == n && |multiset(log)| == |log|;
    AcceptedNonEmpty(t, g, other);
    forall k | 0 <= k < n ensures SeqOf(other[k]) == Some(k) { AcceptedPlace(t, g, other, k); }
    forall k | 0 <= k < |log| ensures SeqOf(log[k]) == Some(U64(k)) { MadeSeq(t, GenesisKey(log), log, k); }
    assert other[n - 1] in multiset(log);
    var i :| 0 <= i < |log| && log[i] == other[n - 1];
    assert forall k :: 0 <= k < |log| ==> SeqOf(log[k]) == Some(k);
    AnyOrder(log, other);
    AnyOrder(other, other);
  }

  lemma AcceptedNonEmpty(t: Tools, g: Bytes, log: seq<Entry>)
    requires Accepted(t, g, log)
    ensures log != []
  {
    hide Placed, Authorized;
  }

  lemma AcceptedPlace(t: Tools, g: Bytes, log: seq<Entry>, k: nat)
    requires Accepted(t, g, log) && k < |log|
    ensures SeqOf(log[k]) == Some(k)
  {
    hide EntryId, Authorized;
    assert Placed(t.crypto, log, k);
  }

  lemma MadeSeq(t: Tools, g: Bytes, log: seq<Entry>, k: nat)
    requires k < |log| && Made(t, g, log, k)
    ensures SeqOf(log[k]) == Some(U64(k))
  {
    hide EntryId, ManifestBytes, RotationVerifies;
  }

  /** Within the counters' width the state file holds what the verifier reports of the entries written. */
  lemma StateIsReport(t: Tools, d: Device)
    requires Consistent(t, d) && d.log != [] && WithinWidth(d.log)
    ensures var report := ReportOf(t.crypto, GenesisKey(d.log), d.log);
            d.state == Some(State(report.identity, report.tipSequence, report.tip, report.epoch))
  {
    hide EntryId, Made, GenesisKey, KeyAfter, RotationsIn;
  }
}
