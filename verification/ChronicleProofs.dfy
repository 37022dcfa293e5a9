/**
 What acceptance of a chronicle is worth: it does not depend on input order, it is closed under
 truncation until a witness receipt stops that, and one tip id stands for one history.
 */
module ChronicleProofs {
  import opened Text
  import opened Primitives
  import opened Records
  import opened Archive
  import opened Chronicle
  import opened Sorting

  // ── Input order ────────────────────────────────────────────────────────────

  /** Entries may be given in any order: sorting restores the one chronicle they form. */
  lemma AnyOrder(log: seq<Entry>, entries: seq<Entry>)
    requires forall k :: 0 <= k < |log| ==> SeqOf(log[k]) == Some(k)
    requires multiset(entries) == multiset(log)
    ensures SortBySeq(entries) == log
  {
    forall x, y | x in log && y in log && SortKey(x) == SortKey(y) ensures x == y {
      var i :| 0 <= i < |log| && log[i] == x;
      var j :| 0 <= j < |log| && log[j] == y;
    }
    SortedIsUnique(SortKey, log, SortBySeq(entries));
  }

  /** The verifier accepts a set of entries exactly when some arrangement of them is a chronicle. */
  lemma AcceptsSomeOrder(t: Tools, genesis: Bytes, entries: seq<Entry>, w: Option<Receipt>)
    ensures AcceptedWith(t, genesis, SortBySeq(entries), w)
       <==> exists log :: multiset(log) == multiset(entries) && AcceptedWith(t, genesis, log, w)
  {
    hide SortBySeq, Placed, Authorized, CrossChecks;
    forall log | multiset(log) == multiset(entries) && AcceptedWith(t, genesis, log, w)
      ensures SortBySeq(entries) == log
    {
      forall k | 0 <= k < |log| ensures SeqOf(log[k]) == Some(k) { PlacedAt(t.crypto, log, k); }
      AnyOrder(log, entries);
    }
  }

  // ── Truncation and receipts ────────────────────────────────────────────────

  lemma {:induction false} PrefixWalk(genesis: Bytes, log: seq<Entry>, n: nat, k: nat)
    requires k <= n <= |log|
    ensures KeyAfter(genesis, log[..n], k) == KeyAfter(genesis, log, k)
    ensures RotationsIn(log[..n], k) == RotationsIn(log, k)
  {
    if k > 0 { PrefixWalk(genesis, log, n, k - 1); }
  }

  lemma PrefixEntry(t: Tools, genesis: Bytes, log: seq<Entry>, n: nat, k: nat)
    requires k < n <= |log|
    ensures Placed(t.crypto, log[..n], k) <==> Placed(t.crypto, log, k)
    ensures Authorized(t, genesis, log[..n], k) <==> Authorized(t, genesis, log, k)
  {
    hide EntryId, ContentOk, ManifestBytes, RotationVerifies;
    PrefixWalk(genesis, log, n, k);
  }

  /** Offline, deleting the tail goes unnoticed: every non-empty prefix of a chronicle is one. */
  lemma PrefixAccepted(t: Tools, genesis: Bytes, log: seq<Entry>, n: nat)
    requires Accepted(t, genesis, log) && 0 < n <= |log|
    ensures Accepted(t, genesis, log[..n])
  {
    hide Placed, Authorized;
    forall k | 0 <= k < n
      ensures Placed(t.crypto, log[..n], k) && Authorized(t, genesis, log[..n], k)
    {
      PrefixEntry(t, genesis, log, n, k);
    }
  }

  /** With a receipt for position `w.sequence`, exactly the prefixes reaching past it are accepted. */
  lemma ReceiptStopsTruncation(t: Tools, genesis: Bytes, log: seq<Entry>, w: Receipt, n: nat)
    requires AcceptedWith(t, genesis, log, Some(w)) && 0 < n <= |log|
    ensures AcceptedWith(t, genesis, log[..n], Some(w)) <==> n > w.sequence
  {
    hide Accepted, EntryId;
    PrefixAccepted(t, genesis, log, n);
    if n > w.sequence {
      PrefixWalk(genesis, log, n, w.sequence + 1);
    }
  }

  /** A receipt for another key than the one in force is refused, wherever else it is right. */
  lemma OtherKeyRefused(t: Tools, genesis: Bytes, disk: map<Bytes, Folder>, paths: seq<Bytes>, w: Receipt, other: Bytes)
    requires PathsAccepted(t, genesis, disk, paths, Some(w)) && other != w.devicePub
    ensures !PathsAccepted(t, genesis, disk, paths, Some(w.(devicePub := other)))
  {
    hide ReadAt, Accepted, SortBySeq, EntryId;
    var w' := w.(devicePub := other);
    var a :| ReadsAs(t, disk, paths, a) && AcceptedWith(t, genesis, SortBySeq(a), Some(w));
    forall b | ReadsAs(t, disk, paths, b) ensures !AcceptedWith(t, genesis, SortBySeq(b), Some(w')) {
      ReadsOnce(t, disk, paths, a, b);
    }
  }

  // ── One tip, one history ───────────────────────────────────────────────────

  /** Equal except for signatures, which the digests do not cover. */
  predicate SameSigned(e: Entry, f: Entry) {
    match (e, f)
    case (Content(m, _), Content(n, _)) => m.(signature := None) == n.(signature := None)
    case (Rotation(r), Rotation(s)) => r.(sigOld := "", sigNew := "") == s.(sigOld := "", sigNew := "")
    case _ => false
  }

  /** Equal except for signatures, down to the bytes of every chunk. */
  predicate SameEntry(e: Entry, f: Entry) {
    && SameSigned(e, f)
    && (e.Content? ==> forall i :: 0 <= i < |e.m.segments| ==>
          ChunkName(i) in e.chunks && ChunkName(i) in f.chunks && e.chunks[ChunkName(i)] == f.chunks[ChunkName(i)])
  }

  lemma CanonicalDetermines(e: Entry, f: Entry)
    requires Canonical(e) == Canonical(f)
    requires e.Content? ==> e.m.device.keyEpoch != Some(0)
    requires f.Content? ==> f.m.device.keyEpoch != Some(0)
    ensures SameSigned(e, f)
  {
    hide ManifestBytes, RotationBytes;
    match (e, f)
    case (Content(m, _), Content(n, _)) => ManifestBytesInjective(m, n);
    case (Rotation(r), Rotation(s)) => RotationBytesInjective(r, s);
    case (Content(m, _), Rotation(r)) => SigningBytesDisjoint(m, r, WitnessRequest("", 0, "", "", "", None));
    case (Rotation(r), Content(m, _)) => SigningBytesDisjoint(m, r, WitnessRequest("", 0, "", "", "", None));
  }

  lemma EpochPresent(t: Tools, genesis: Bytes, log: seq<Entry>, k: nat)
    requires k < |log| && Authorized(t, genesis, log, k) && log[k].Content?
    ensures log[k].m.device.keyEpoch != Some(0) && ContentOk(t, log[k].m, log[k].chunks)
  {
    hide ManifestBytes, NoStrays, SegmentOk, ContinuityOk;
  }

  /** Two entries with one id agree in everything signed, or their canonical bytes collide. */
  lemma IdBinds(c: Crypto, e: Entry, f: Entry) returns (x: Bytes, y: Bytes)
    requires HashLaws(c) && EntryId(c, e) == EntryId(c, f)
    requires e.Content? ==> e.m.device.keyEpoch != Some(0)
    requires f.Content? ==> f.m.device.keyEpoch != Some(0)
    ensures SameSigned(e, f) || Collides(c, x, y)
  {
    hide Canonical, SameSigned;
    x, y := Canonical(e), Canonical(f);
    ArchiveIdInjective(c.hash(x), c.hash(y));
    if x == y { CanonicalDetermines(e, f); }
  }

  lemma SameSignedPlace(c: Crypto, a: seq<Entry>, j: nat, b: seq<Entry>, k: nat)
    requires j < |a| && k < |b| && Placed(c, a, j) && Placed(c, b, k) && SameSigned(a[j], b[k])
    ensures j == k && (j > 0 ==> EntryId(c, a[j - 1]) == EntryId(c, b[k - 1]))
  {
    hide EntryId;
  }

  /** From two entries with one id, backwards along the links. */
  lemma {:induction false} HistoriesBind(t: Tools, g: Bytes, a: seq<Entry>, j: nat, h: Bytes, b: seq<Entry>, k: nat)
    returns (x: Bytes, y: Bytes)
    requires HashLaws(t.crypto) && Accepted(t, g, a) && Accepted(t, h, b)
    requires j < |a| && k < |b| && EntryId(t.crypto, a[j]) == EntryId(t.crypto, b[k])
    ensures Collides(t.crypto, x, y) || (j == k && forall i :: 0 <= i <= j ==> SameSigned(a[i], b[i]))
    decreases j
  {
    hide EntryId, SameSigned, Placed, Authorized;
    if a[j].Content? { EpochPresent(t, g, a, j); }
    if b[k].Content? { EpochPresent(t, h, b, k); }
    x, y := IdBinds(t.crypto, a[j], b[k]);
    if SameSigned(a[j], b[k]) {
      SameSignedPlace(t.crypto, a, j, b, k);
      if j > 0 {
        x, y := HistoriesBind(t, g, a, j - 1, h, b, k - 1);
      }
    }
  }

  lemma ChunkBinds(t: Tools, m: Manifest, chunks: map<Bytes, Bytes>, n: Manifest, others: map<Bytes, Bytes>, i: nat)
    returns (x: Bytes, y: Bytes)
    requires HashLaws(t.crypto) && i < |m.segments| && m.segments == n.segments
    requires SegmentOk(t.crypto, m.segments[i], chunks, i) && SegmentOk(t.crypto, n.segments[i], others, i)
    ensures ChunkName(i) in chunks && ChunkName(i) in others
    ensures chunks[ChunkName(i)] == others[ChunkName(i)] || Collides(t.crypto, x, y)
  {
    x, y := chunks[ChunkName(i)], others[ChunkName(i)];
    HexRoundTrip(t.crypto.hash(x));
    HexRoundTrip(t.crypto.hash(y));
  }

  /** Entries that agree in what is signed agree in their chunks, or two chunks collide. */
  lemma ContentBinds(t: Tools, g: Bytes, a: seq<Entry>, h: Bytes, b: seq<Entry>, k: nat) returns (x: Bytes, y: Bytes)
    requires HashLaws(t.crypto) && k < |a| && k < |b| && SameSigned(a[k], b[k])
    requires Authorized(t, g, a, k) && Authorized(t, h, b, k)
    ensures SameEntry(a[k], b[k]) || Collides(t.crypto, x, y)
  {
    hide Authorized, SegmentOk, ChunkName;
    x, y := "", "";
    if a[k].Content? {
      EpochPresent(t, g, a, k);
      EpochPresent(t, h, b, k);
      var m, n, p, q := a[k].m, b[k].m, a[k].chunks, b[k].chunks;
      var i := 0;
      while i < |m.segments|
        invariant i <= |m.segments|
        invariant forall s :: 0 <= s < i ==> ChunkName(s) in p && ChunkName(s) in q && p[ChunkName(s)] == q[ChunkName(s)]
      {
        x, y := ChunkBinds(t, m, p, n, q, i);
        if p[ChunkName(i)] != q[ChunkName(i)] { return; }
        i := i + 1;
      }
    }
  }

  lemma {:induction false} ContentsBind(t: Tools, g: Bytes, a: seq<Entry>, h: Bytes, b: seq<Entry>, n: nat) returns (x: Bytes, y: Bytes)
    requires HashLaws(t.crypto) && Accepted(t, g, a) && Accepted(t, h, b) && n <= |a| && n <= |b|
    requires forall i :: 0 <= i < n ==> SameSigned(a[i], b[i])
    ensures Collides(t.crypto, x, y) || forall i :: 0 <= i < n ==> SameEntry(a[i], b[i])
  {
    hide SameSigned, SameEntry, Placed, Authorized;
    x, y := "", "";
    if n > 0 {
      x, y := ContentBinds(t, g, a, h, b, n - 1);
      if !Collides(t.crypto, x, y) { x, y := ContentsBind(t, g, a, h, b, n - 1); }
    }
  }

  lemma SameGenesisKey(t: Tools, g: Bytes, a: seq<Entry>, h: Bytes, b: seq<Entry>)
    requires Accepted(t, g, a) && Accepted(t, h, b) && SameSigned(a[0], b[0])
    ensures g == h
  {
    hide EntryId, ContentOk, ManifestBytes;
    assert Placed(t.crypto, a, 0) && Authorized(t, g, a, 0) && Authorized(t, h, b, 0);
  }

  /**
   Two accepted chronicles that contain one entry id share the whole history up to it, down to chunk
   contents and genesis key; if they do not, two colliding messages are produced from them.
   */
  lemma SharedHistory(t: Tools, g: Bytes, a: seq<Entry>, j: nat, h: Bytes, b: seq<Entry>, k: nat) returns (x: Bytes, y: Bytes)
    requires HashLaws(t.crypto) && Accepted(t, g, a) && Accepted(t, h, b)
    requires j < |a| && k < |b| && EntryId(t.crypto, a[j]) == EntryId(t.crypto, b[k])
    ensures Collides(t.crypto, x, y) || (j == k && g == h && forall i :: 0 <= i <= j ==> SameEntry(a[i], b[i]))
  {
    hide EntryId, SameSigned, SameEntry, Accepted;
    x, y := HistoriesBind(t, g, a, j, h, b, k);
    if !Collides(t.crypto, x, y) {
      SameGenesisKey(t, g, a, h, b);
      x, y := ContentsBind(t, g, a, h, b, j + 1);
    }
  }

  /** Two accepted chronicles with one tip are one chronicle. */
  lemma SameTipSameChronicle(t: Tools, g: Bytes, a: seq<Entry>, h: Bytes, b: seq<Entry>) returns (x: Bytes, y: Bytes)
    requires HashLaws(t.crypto) && Accepted(t, g, a) && Accepted(t, h, b)
    requires ReportOf(t.crypto, g, a).tip == ReportOf(t.crypto, h, b).tip
    ensures Collides(t.crypto, x, y) || (g == h && |a| == |b| && forall i :: 0 <= i < |a| ==> SameEntry(a[i], b[i]))
  {
    hide EntryId, SameEntry, Placed, Authorized;
    x, y := SharedHistory(t, g, a, |a| - 1, h, b, |b| - 1);
  }

  /** Any two chronicles that pass with one receipt agree on everything up to the witnessed entry. */
  lemma ReceiptFixesHistory(t: Tools, g: Bytes, a: seq<Entry>, h: Bytes, b: seq<Entry>, w: Receipt) returns (x: Bytes, y: Bytes)
    requires HashLaws(t.crypto) && AcceptedWith(t, g, a, Some(w)) && AcceptedWith(t, h, b, Some(w))
    ensures Collides(t.crypto, x, y) || (g == h && forall i :: 0 <= i <= w.sequence ==> SameEntry(a[i], b[i]))
  {
    hide EntryId, SameEntry, Accepted;
    x, y := SharedHistory(t, g, a, w.sequence, h, b, w.sequence);
  }

  // ── Who signed what ────────────────────────────────────────────────────────

  /** The positions of the rotations before `k`. */
  ghost function RotationPlaces(log: seq<Entry>, k: nat): set<nat>
    requires k <= |log|
  {
    set i | 0 <= i < k && log[i].Rotation?
  }

  /** The epoch the walk carries is the number of rotations passed. */
  lemma {:induction false} RotationsCounted(log: seq<Entry>, k: nat)
    requires k <= |log|
    ensures RotationsIn(log, k) == |RotationPlaces(log, k)|
  {
    if k > 0 {
      RotationsCounted(log, k - 1);
      var before := RotationPlaces(log, k - 1);
      assert RotationPlaces(log, k) == if log[k - 1].Rotation? then before + {k - 1} else before;
    }
  }

  /** Every rotation in an accepted chronicle is signed by the key in force and by the key it installs, one epoch on. */
  lemma RotationSigners(t: Tools, genesis: Bytes, log: seq<Entry>, k: nat)
    requires Accepted(t, genesis, log) && k < |log| && log[k].Rotation?
    ensures var r := log[k].r;
            && t.crypto.verifies(KeyAfter(genesis, log, k), RotationBytes(r), r.sigOld)
            && t.crypto.verifies(KeyAfter(genesis, log, k + 1), RotationBytes(r), r.sigNew)
            && r.oldEpoch == |RotationPlaces(log, k)| && r.newEpoch == |RotationPlaces(log, k + 1)|
  {
    hide Placed, RotationBytes;
    assert Authorized(t, genesis, log, k);
    RotationsCounted(log, k);
    RotationsCounted(log, k + 1);
  }

  /**
   In an accepted chronicle every archive is signed by the new key of the latest earlier rotation, or
   by the genesis key if there is none, and carries as its epoch the number of earlier rotations.
   */
  lemma ArchiveSigner(t: Tools, genesis: Bytes, log: seq<Entry>, k: nat, j: nat)
    requires Accepted(t, genesis, log) && k < |log| && log[k].Content?
    ensures EpochOf(log[k].m) == |RotationPlaces(log, k)|
    ensures (forall i :: 0 <= i < k ==> log[i].Content?) ==> log[k].m.device.publicKey == genesis
    ensures LatestRotation(log, j, k) ==> log[k].m.device.publicKey == log[j].r.newKey
    ensures log[k].m.signature.Some?
    ensures t.crypto.verifies(log[k].m.device.publicKey, ManifestBytes(log[k].m), log[k].m.signature.value)
  {
    hide Placed, ContentOk, ManifestBytes, RotationVerifies;
    assert Authorized(t, genesis, log, k);
    RotationsCounted(log, k);
    if forall i :: 0 <= i < k ==> log[i].Content? { KeyWithoutRotation(genesis, log, k); }
    if LatestRotation(log, j, k) { KeyOfLatestRotation(genesis, log, j, k); }
  }

  // ── Acceptance, written out ────────────────────────────────────────────────

  /** Entry `k` stands at position `k` of a log of the supported version and continues entry `k - 1`. */
  ghost predicate Continues(c: Crypto, log: seq<Entry>, k: nat)
    requires k < |log|
  {
    match log[k]
    case Content(m, _) =>
      && m.version == "0.2.0" && m.sequence == Some(k)
      && m.prev == if k == 0 then None else Some("b3:" + Hex(c.hash(Canonical(log[k - 1]))))
    case Rotation(r) =>
      && k > 0 && r.version == "0.2.0" && r.sequence == k && r.prev == "b3:" + Hex(c.hash(Canonical(log[k - 1])))
  }

  /** Entry `k` is signed by `key`, the identity before it, and carries the number of rotations before it. */
  ghost predicate SignedBy(t: Tools, log: seq<Entry>, k: nat, key: Bytes)
    requires k < |log|
  {
    var c, epoch := t.crypto, |RotationPlaces(log, k)|;
    match log[k]
    case Content(m, chunks) =>
      && m.device.publicKey == key && m.device.keyEpoch == (if epoch == 0 then None else Some(epoch))
      && m.signature.Some? && c.verifies(key, ManifestBytes(m), m.signature.value)
      && ContentOk(t, m, chunks)
    case Rotation(r) =>
      && r.kind == "rotation" && r.oldKey == key && r.oldEpoch == epoch && r.newEpoch == epoch + 1 < 0x1_0000_0000
      && c.verifies(key, RotationBytes(r), r.sigOld) && c.verifies(r.newKey, RotationBytes(r), r.sigNew)
  }

  lemma ContinuesIs(c: Crypto, log: seq<Entry>, k: nat)
    requires k < |log|
    ensures Continues(c, log, k) <==> Placed(c, log, k)
  {
    hide Canonical, Hex;
  }

  lemma SignedIs(t: Tools, genesis: Bytes, log: seq<Entry>, k: nat)
    requires k < |log|
    ensures Authorized(t, genesis, log, k) <==> SignedBy(t, log, k, KeyAfter(genesis, log, k))
  {
    hide NoStrays, Backed, ManifestBytes, RotationBytes, KeyAfter, RotationsIn;
    RotationsCounted(log, k);
  }

  /** Entry `k` is signed by the identity in force before it: the genesis key at the start. */
  ghost predicate SignedInTurn(t: Tools, genesis: Bytes, log: seq<Entry>, k: nat)
    requires k < |log|
  {
    if k == 0 then SignedBy(t, log, 0, genesis)
    else exists key :: InForce(genesis, log, k - 1, key) && SignedBy(t, log, k, key)
  }

  lemma SignedInTurnIs(t: Tools, genesis: Bytes, log: seq<Entry>, k: nat)
    requires k < |log|
    ensures Authorized(t, genesis, log, k) <==> SignedInTurn(t, genesis, log, k)
  {
    hide Authorized, SignedBy, InForce, KeyAfter;
    SignedIs(t, genesis, log, k);
    if k == 0 {
      KeyWithoutRotation(genesis, log, 0);
    } else {
      var n := k - 1;
      InForceIs(genesis, log, n, KeyAfter(genesis, log, k));
      forall key | InForce(genesis, log, n, key) ensures key == KeyAfter(genesis, log, k) {
        InForceIs(genesis, log, n, key);
      }
    }
  }

  /** Acceptance in full: what each entry has to say about its place, and who has to have signed it. */
  lemma AcceptedMeans(t: Tools, genesis: Bytes, log: seq<Entry>)
    ensures Accepted(t, genesis, log) <==>
              log != [] && forall k :: 0 <= k < |log| ==> Continues(t.crypto, log, k) && SignedInTurn(t, genesis, log, k)
  {
    hide Placed, Authorized, Continues, SignedInTurn;
    forall k | 0 <= k < |log|
      ensures Continues(t.crypto, log, k) <==> Placed(t.crypto, log, k)
      ensures Authorized(t, genesis, log, k) <==> SignedInTurn(t, genesis, log, k)
    {
      ContinuesIs(t.crypto, log, k);
      SignedInTurnIs(t, genesis, log, k);
    }
  }

  /** The report of a chronicle: how many entries and rotations, the last entry's place and id, and the identity it leaves. */
  lemma ReportSays(c: Crypto, genesis: Bytes, log: seq<Entry>)
    requires log != []
    ensures var r, n := ReportOf(c, genesis, log), |log|;
            && r.count == n && r.rotations == |RotationPlaces(log, n)| && r.epoch == |RotationPlaces(log, n)|
            && r.tipSequence == n - 1 && r.tip == "b3:" + Hex(c.hash(Canonical(log[n - 1]))) && InForce(genesis, log, n - 1, r.identity)
  {
    hide Canonical, Hex, RotationsIn, KeyAfter, InForce;
    var n := |log|;
    RotationsCounted(log, n);
    InForceIs(genesis, log, n - 1, KeyAfter(genesis, log, n));
  }

  /** An entry is read from a directory as a rotation if there is a `rotation.json`, well-formed, and as an archive only without one. */
  lemma ReadAtMeans(t: Tools, disk: map<Bytes, Folder>, path: Bytes, e: Entry)
    ensures ReadAt(t, disk, path) == Some(e) <==>
              && path in disk
              && match e
                 case Rotation(r) => disk[path].rotation.Some? && t.decodeRotation(disk[path].rotation.value) == Some(r)
                 case Content(m, chunks) =>
                   disk[path].rotation.None? && ReadManifest(t, disk[path].dir) == Some(m) && chunks == disk[path].dir.chunks
  {
  }
}
