/**
 The device chronicle and its offline verifier: entries are sorted, checked for contiguity, genesis
 and links, and then walked while carrying the active signer and epoch.
 */
module Chronicle {
  import opened Text
  import opened Primitives
  import opened Records
  import opened Archive
  import opened Sorting

  /** A chronicle entry as read from its directory: a content archive or a key rotation. */
  datatype Entry = Content(m: Manifest, chunks: map<Bytes, Bytes>) | Rotation(r: RotationRecord)

  function Canonical(e: Entry): Bytes {
    match e
    case Content(m, _) => ManifestBytes(m)
    case Rotation(r) => RotationBytes(r)
  }

  /** The id by which the next entry links to this one. */
  function EntryId(c: Crypto, e: Entry): Bytes { ArchiveId(c.hash(Canonical(e))) }

  function VersionOf(e: Entry): Bytes { match e case Content(m, _) => m.version case Rotation(r) => r.version }

  function SeqOf(e: Entry): Option<nat> { match e case Content(m, _) => m.sequence case Rotation(r) => Some(r.sequence) }

  function PrevOf(e: Entry): Option<Bytes> { match e case Content(m, _) => m.prev case Rotation(r) => Some(r.prev) }

  function EpochOf(m: Manifest): nat { if m.device.keyEpoch.Some? then m.device.keyEpoch.value else 0 }

  // ── What a valid chronicle is ──────────────────────────────────────────────

  /** The number of rotations among the first `k` entries. */
  function RotationsIn(log: seq<Entry>, k: nat): nat
    requires k <= |log|
  {
    if k == 0 then 0 else RotationsIn(log, k - 1) + if log[k - 1].Rotation? then 1 else 0
  }

  /** The identity in force after the first `k` entries: the latest rotation's new key, else the genesis key. */
  function KeyAfter(genesis: Bytes, log: seq<Entry>, k: nat): Bytes
    requires k <= |log|
  {
    if k == 0 then genesis
    else if log[k - 1].Rotation? then log[k - 1].r.newKey
    else KeyAfter(genesis, log, k - 1)
  }

  /** `j` is the latest rotation before position `k`. */
  predicate LatestRotation(log: seq<Entry>, j: nat, k: nat) {
    j < k <= |log| && log[j].Rotation? && forall i :: j < i < k ==> log[i].Content?
  }

  lemma {:induction false} KeyOfLatestRotation(genesis: Bytes, log: seq<Entry>, j: nat, k: nat)
    requires LatestRotation(log, j, k)
    ensures KeyAfter(genesis, log, k) == log[j].r.newKey
    decreases k
  {
    if j < k - 1 {
      assert log[k - 1].Content?;
      KeyOfLatestRotation(genesis, log, j, k - 1);
    }
  }

  lemma {:induction false} KeyWithoutRotation(genesis: Bytes, log: seq<Entry>, k: nat)
    requires k <= |log| && forall i :: 0 <= i < k ==> log[i].Content?
    ensures KeyAfter(genesis, log, k) == genesis && RotationsIn(log, k) == 0
  {
    if k > 0 { KeyWithoutRotation(genesis, log, k - 1); }
  }

  /** `key` is the identity after entry `n`: installed by the latest rotation up to it, or the genesis key without one. */
  predicate InForce(genesis: Bytes, log: seq<Entry>, n: nat, key: Bytes)
    requires n < |log|
  {
    || (exists j :: 0 <= j <= n && LatestRotation(log, j, n + 1) && log[j].r.newKey == key)
    || (key == genesis && forall i :: 0 <= i <= n ==> log[i].Content?)
  }

  lemma {:induction false} SomeLatest(log: seq<Entry>, k: nat) returns (j: nat)
    requires k <= |log| && exists i :: 0 <= i < k && log[i].Rotation?
    ensures LatestRotation(log, j, k)
    decreases k
  {
    if log[k - 1].Rotation? { j := k - 1; } else { j := SomeLatest(log, k - 1); }
  }

  /** There is one identity in force after each entry: the one the walk carries. */
  lemma InForceIs(genesis: Bytes, log: seq<Entry>, n: nat, key: Bytes)
    requires n < |log|
    ensures InForce(genesis, log, n, key) <==> key == KeyAfter(genesis, log, n + 1)
  {
    if forall i :: 0 <= i <= n ==> log[i].Content? {
      KeyWithoutRotation(genesis, log, n + 1);
    } else {
      var j := SomeLatest(log, n + 1);
      KeyOfLatestRotation(genesis, log, j, n + 1);
      assert forall i :: 0 <= i <= n && log[i].Rotation? && LatestRotation(log, i, n + 1) ==> i == j;
    }
  }

  /** Entry `k` is in its place: supported version, position `k`, linked to entry `k - 1`. */
  predicate Placed(c: Crypto, log: seq<Entry>, k: nat)
    requires k < |log|
  {
    && VersionOf(log[k]) == FORMAT_VERSION
    && SeqOf(log[k]) == Some(k)
    && (k == 0 ==> log[0].Content?)
    && PrevOf(log[k]) == if k == 0 then None else Some(EntryId(c, log[k - 1]))
  }

  /** Entry `k` is signed by the identity in force, at the epoch in force. */
  predicate Authorized(t: Tools, genesis: Bytes, log: seq<Entry>, k: nat)
    requires k < |log|
  {
    var key := KeyAfter(genesis, log, k);
    match log[k]
    case Content(m, chunks) =>
      && m.device.publicKey == key
      && EpochOf(m) == RotationsIn(log, k)
      && m.signature.Some? && t.crypto.verifies(key, ManifestBytes(m), m.signature.value)
      && ContentOk(t, m, chunks)
    case Rotation(r) =>
      r.oldKey == key && r.oldEpoch == RotationsIn(log, k) && RotationVerifies(t.crypto, r)
  }

  /** A chronicle rooted in `genesis`, oldest entry first. */
  predicate Accepted(t: Tools, genesis: Bytes, log: seq<Entry>) {
    && log != []
    && (forall k :: 0 <= k < |log| ==> Placed(t.crypto, log, k))
    && (forall k :: 0 <= k < |log| ==> Authorized(t, genesis, log, k))
  }

  /** The verified content of a witness receipt. */
  datatype Receipt = Receipt(devicePub: Bytes, sequence: nat, tip: Bytes)

  /** The chronicle reaches the witnessed position, under the witnessed key, with the witnessed entry. */
  predicate CrossChecks(c: Crypto, genesis: Bytes, log: seq<Entry>, w: Receipt) {
    && w.sequence < |log|
    && w.devicePub == KeyAfter(genesis, log, w.sequence + 1)
    && w.tip == EntryId(c, log[w.sequence])
  }

  predicate AcceptedWith(t: Tools, genesis: Bytes, log: seq<Entry>, w: Option<Receipt>) {
    Accepted(t, genesis, log) && (w.Some? ==> CrossChecks(t.crypto, genesis, log, w.value))
  }

  // ── Sorting ────────────────────────────────────────────────────────────────

  function SortKey(e: Entry): nat { if SeqOf(e).Some? then SeqOf(e).value else 0 }

  /** `sort_by_key(|e| e.seq)`. */
  function SortBySeq(es: seq<Entry>): (r: seq<Entry>)
    ensures Sorted(SortKey, r) && multiset(r) == multiset(es) && |r| == |es|
    ensures forall x :: x in r <==> x in es
  {
    Sort(SortKey, es)
  }

  // ── Entries on disk ────────────────────────────────────────────────────────

  /** An entry directory: `rotation.json`, if there is one, and the files of an archive. */
  datatype Folder = Folder(rotation: Option<Bytes>, dir: Dir)

  const NO_FOLDER: Folder := Folder(None, Dir(None, None, map[]))

  /** `is_chronicle_entry_dir`. */
  predicate IsEntry(f: Folder) { f.rotation.Some? || f.dir.manifest.Some? }

  /** What is read from one directory; `rotation.json` goes first. */
  function ReadFolder(t: Tools, f: Folder): Option<Entry> {
    match f.rotation
    case Some(json) =>
      (match t.decodeRotation(json)
       case Some(r) => Some(Rotation(r))
       case None => None)
    case None =>
      match ReadManifest(t, f.dir)
      case Some(m) => Some(Content(m, f.dir.chunks))
      case None => None
  }

  function ReadAt(t: Tools, disk: map<Bytes, Folder>, path: Bytes): Option<Entry> {
    if path in disk && IsEntry(disk[path]) then ReadFolder(t, disk[path]) else None
  }

  /** The entries at the given paths, or nothing if one cannot be read. */
  ghost predicate ReadsAs(t: Tools, disk: map<Bytes, Folder>, paths: seq<Bytes>, entries: seq<Entry>) {
    |entries| == |paths| && forall i :: 0 <= i < |paths| ==> ReadAt(t, disk, paths[i]) == Some(entries[i])
  }

  /** Every directory can be read, and the entries read pass. */
  ghost predicate PathsAccepted(t: Tools, genesis: Bytes, disk: map<Bytes, Folder>, paths: seq<Bytes>, w: Option<Receipt>) {
    exists entries :: ReadsAs(t, disk, paths, entries) && AcceptedWith(t, genesis, SortBySeq(entries), w)
  }

  // ── The verifier ───────────────────────────────────────────────────────────

  /** What a passing run reports. */
  datatype Report = Report(count: nat, rotations: nat, tipSequence: nat, tip: Bytes, identity: Bytes, epoch: nat)

  function ReportOf(c: Crypto, genesis: Bytes, log: seq<Entry>): Report
    requires log != []
  {
    var n := |log|;
    Report(n, RotationsIn(log, n), n - 1, EntryId(c, log[n - 1]), KeyAfter(genesis, log, n), RotationsIn(log, n))
  }

  /** Reading stage: every entry has a supported version and a position. */
  method ReadEntries(entries: seq<Entry>) returns (ok: bool)
    ensures ok <==> forall e :: e in entries ==> VersionOf(e) == FORMAT_VERSION && SeqOf(e).Some?
  {
    for i := 0 to |entries|
      invariant forall k :: 0 <= k < i ==> VersionOf(entries[k]) == FORMAT_VERSION && SeqOf(entries[k]).Some?
    {
      if VersionOf(entries[i]) != FORMAT_VERSION || SeqOf(entries[i]).None? { return false; }
    }
    return true;
  }

  /** Structure: contiguous positions, a content archive without predecessor first, each entry linked. */
  method CheckStructure(c: Crypto, log: seq<Entry>) returns (ok: bool)
    requires log != [] && forall k :: 0 <= k < |log| ==> VersionOf(log[k]) == FORMAT_VERSION && SeqOf(log[k]).Some?
    ensures ok <==> forall k :: 0 <= k < |log| ==> Placed(c, log, k)
  {
    hide EntryId;
    for i := 0 to |log|
      invariant forall k :: 0 <= k < i ==> SeqOf(log[k]) == Some(k)
    {
      if SeqOf(log[i]).value != i {
        assert !Placed(c, log, i);
        return false;
      }
    }
    if log[0].Rotation? || PrevOf(log[0]).Some? {
      assert !Placed(c, log, 0);
      return false;
    }
    for k := 1 to |log|
      invariant forall j :: 0 <= j < k ==> Placed(c, log, j)
    {
      var expected := EntryId(c, log[k - 1]);
      if PrevOf(log[k]) != Some(expected) {
        assert !Placed(c, log, k);
        return false;
      }
    }
    return true;
  }

  /** The walk's check of one entry against the identity it carries, and the identity after it. */
  function WalkEntry(t: Tools, signer: Bytes, epoch: nat, e: Entry): Option<(Bytes, nat)> {
    match e
    case Content(m, chunks) =>
      if && m.device.publicKey == signer
         && EpochOf(m) == epoch
         && m.signature.Some?
         && t.crypto.verifies(signer, ManifestBytes(m), m.signature.value)
         && ContentOk(t, m, chunks)
      then Some((signer, epoch)) else None
    case Rotation(r) =>
      if r.oldKey == signer && r.oldEpoch == epoch && RotationVerifies(t.crypto, r)
      then Some((r.newKey, r.newEpoch)) else None
  }

  lemma WalkEntryMeans(t: Tools, genesis: Bytes, log: seq<Entry>, k: nat)
    requires k < |log|
    ensures WalkEntry(t, KeyAfter(genesis, log, k), RotationsIn(log, k), log[k]) ==
            if Authorized(t, genesis, log, k) then Some((KeyAfter(genesis, log, k + 1), RotationsIn(log, k + 1))) else None
  {
    hide ContentOk, ManifestBytes, RotationBytes;
  }

  /**
   The active-identity walk. The carried signer and epoch are the declarative ones: in particular
   the epoch, which the loop copies from each rotation, is the number of rotations so far.
   */
  method Walk(t: Tools, genesis: Bytes, log: seq<Entry>) returns (ok: bool, signer: Bytes, epoch: nat, rotations: nat, signerAt: seq<Bytes>)
    ensures ok <==> forall k :: 0 <= k < |log| ==> Authorized(t, genesis, log, k)
    ensures ok ==> signer == KeyAfter(genesis, log, |log|) && epoch == rotations == RotationsIn(log, |log|)
    ensures ok ==> |signerAt| == |log| && forall k :: 0 <= k < |log| ==> signerAt[k] == KeyAfter(genesis, log, k + 1)
  {
    hide WalkEntry, Authorized;
    ok, signer, epoch, rotations, signerAt := true, genesis, 0, 0, [];
    for i := 0 to |log|
      invariant ok && signer == KeyAfter(genesis, log, i) && epoch == rotations == RotationsIn(log, i)
      invariant forall k :: 0 <= k < i ==> Authorized(t, genesis, log, k)
      invariant |signerAt| == i && forall k :: 0 <= k < i ==> signerAt[k] == KeyAfter(genesis, log, k + 1)
    {
      WalkEntryMeans(t, genesis, log, i);
      var next := WalkEntry(t, signer, epoch, log[i]);
      ok := next.Some?;
      if !ok { return; }
      if log[i].Rotation? { rotations := rotations + 1; }
      signer, epoch := next.value.0, next.value.1;
      signerAt := signerAt + [signer];
    }
  }

  lemma PlacedAt(c: Crypto, log: seq<Entry>, k: nat)
    requires k < |log| && Placed(c, log, k)
    ensures SeqOf(log[k]) == Some(k)
  {
    hide EntryId;
  }

  lemma UnreadableRefused(c: Crypto, entries: seq<Entry>, e: Entry)
    requires e in entries && !(VersionOf(e) == FORMAT_VERSION && SeqOf(e).Some?)
    ensures exists k :: 0 <= k < |SortBySeq(entries)| && !Placed(c, SortBySeq(entries), k)
  {
    var sorted := SortBySeq(entries);
    assert e in sorted;
    var k :| 0 <= k < |sorted| && sorted[k] == e;
    assert !Placed(c, sorted, k);
  }

  /** The `--witness` cross-check, against the signers the walk went through. */
  method MeetsReceipt(c: Crypto, genesis: Bytes, log: seq<Entry>, signerAt: seq<Bytes>, tipSequence: nat, w: Receipt) returns (ok: bool)
    requires log != [] && tipSequence == |log| - 1 && |signerAt| == |log|
    requires forall k :: 0 <= k < |log| ==> signerAt[k] == KeyAfter(genesis, log, k + 1)
    ensures ok <==> CrossChecks(c, genesis, log, w)
  {
    hide EntryId, KeyAfter;
    if tipSequence < w.sequence { return false; }
    if w.devicePub != signerAt[w.sequence] { return false; }
    return w.tip == EntryId(c, log[w.sequence]);
  }

  lemma ReceiptMet(c: Crypto, genesis: Bytes, log: seq<Entry>, w: Receipt)
    ensures CrossChecks(c, genesis, log, w) <==>
              && w.sequence < |log| && InForce(genesis, log, w.sequence, w.devicePub)
              && w.tip == EntryId(c, log[w.sequence])
  {
    hide EntryId, KeyAfter, InForce;
    if w.sequence < |log| { InForceIs(genesis, log, w.sequence, w.devicePub); }
  }

  /** `seal verify-chronicle`, with or without a witness receipt to cross-check. */
  method VerifyChronicle(t: Tools, genesis: Bytes, entries: seq<Entry>, w: Option<Receipt>) returns (v: Option<Report>)
    ensures v.Some? <==> AcceptedWith(t, genesis, SortBySeq(entries), w)
    ensures v.Some? <==> var log := SortBySeq(entries);
              && Accepted(t, genesis, log)
              && (w.Some? ==> && w.value.sequence < |log| && InForce(genesis, log, w.value.sequence, w.value.devicePub)
                              && w.value.tip == EntryId(t.crypto, log[w.value.sequence]))
    ensures v.Some? ==> v.value == ReportOf(t.crypto, genesis, SortBySeq(entries))
  {
    hide SortBySeq, Authorized, EntryId, Placed, KeyAfter, RotationsIn, CrossChecks, InForce;
    if w.Some? { ReceiptMet(t.crypto, genesis, SortBySeq(entries), w.value); }
    if entries == [] { return None; }
    var readable := ReadEntries(entries);
    if !readable {
      ghost var e :| e in entries && !(VersionOf(e) == FORMAT_VERSION && SeqOf(e).Some?);
      UnreadableRefused(t.crypto, entries, e);
      return None;
    }
    var log := SortBySeq(entries);
    assert forall k :: 0 <= k < |log| ==> log[k] in entries;
    var structured := CheckStructure(t.crypto, log);
    if !structured { return None; }
    var ok, signer, epoch, rotations, signerAt := Walk(t, genesis, log);
    if !ok { return None; }
    var n := |log|;
    PlacedAt(t.crypto, log, n - 1);
    var tipSequence := SeqOf(log[n - 1]).value;
    if w.Some? {
      var met := MeetsReceipt(t.crypto, genesis, log, signerAt, tipSequence, w.value);
      if !met { return None; }
    }
    return Some(Report(n, rotations, tipSequence, EntryId(t.crypto, log[n - 1]), signer, epoch));
  }

  lemma ReadsOnce(t: Tools, disk: map<Bytes, Folder>, paths: seq<Bytes>, a: seq<Entry>, b: seq<Entry>)
    requires ReadsAs(t, disk, paths, a) && ReadsAs(t, disk, paths, b)
    ensures a == b
  {
    forall i | 0 <= i < |paths| ensures a[i] == b[i] { assert Some(a[i]) == Some(b[i]); }
  }

  /** The children of a directory that are entry directories. */
  function EntryNames(disk: map<Bytes, Folder>): set<Bytes> { set name | name in disk && IsEntry(disk[name]) }

  /** `collect_archive_dirs` for a plain directory: each entry among its children, once. */
  method ScanDirectory(disk: map<Bytes, Folder>) returns (paths: seq<Bytes>)
    ensures Unrepeated(paths) && Elements(paths) == EntryNames(disk)
  {
    paths := [];
    var names := disk.Keys;
    while names != {}
      invariant names <= disk.Keys && Unrepeated(paths)
      invariant forall name :: name in paths <==> name in disk && name !in names && IsEntry(disk[name])
      decreases |names|
    {
      var name :| name in names;
      if IsEntry(disk[name]) { paths := paths + [name]; }
      names := names - {name};
    }
  }

  /** `seal verify-chronicle` from its path arguments, one entry directory each. */
  method VerifyPaths(t: Tools, genesis: Bytes, disk: map<Bytes, Folder>, paths: seq<Bytes>, w: Option<Receipt>)
    returns (v: Option<Report>)
    ensures v.Some? <==> PathsAccepted(t, genesis, disk, paths, w)
    ensures forall entries :: v.Some? && ReadsAs(t, disk, paths, entries) ==>
              entries != [] && v.value == ReportOf(t.crypto, genesis, SortBySeq(entries))
  {
    hide ReadAt, AcceptedWith, SortBySeq, ReportOf;
    var entries: seq<Entry> := [];
    for i := 0 to |paths|
      invariant |entries| == i && forall k :: 0 <= k < i ==> ReadAt(t, disk, paths[k]) == Some(entries[k])
    {
      var e := ReadAt(t, disk, paths[i]);
      if e.None? { return None; }
      entries := entries + [e.value];
    }
    assert ReadsAs(t, disk, paths, entries);
    v := VerifyChronicle(t, genesis, entries, w);
    forall other | ReadsAs(t, disk, paths, other) ensures other == entries { ReadsOnce(t, disk, paths, other, entries); }
    if v.Some? { NonEmpty(t, genesis, entries, w); }
  }

  /** `verify-chronicle` on a plain directory. */
  method VerifyDirectory(t: Tools, genesis: Bytes, disk: map<Bytes, Folder>, w: Option<Receipt>)
    returns (v: Option<Report>, paths: seq<Bytes>)
    ensures Unrepeated(paths) && Elements(paths) == EntryNames(disk)
    ensures v.Some? <==> PathsAccepted(t, genesis, disk, paths, w)
  {
    hide EntryNames, Unrepeated, PathsAccepted;
    paths := ScanDirectory(disk);
    v := VerifyPaths(t, genesis, disk, paths, w);
  }

  lemma NonEmpty(t: Tools, genesis: Bytes, entries: seq<Entry>, w: Option<Receipt>)
    requires AcceptedWith(t, genesis, SortBySeq(entries), w)
    ensures entries != []
  {
  }
}
