/**
 What a run of the producers leaves on disk. `wrap` writes into an existing output directory, so the
 entries found there later need not be the ones written: this module says exactly when they are, and
 when `verify-chronicle` accepts them.
 */
module DiskProofs {
  import opened Text
  import opened Json
  import opened Primitives
  import opened Records
  import opened Chain
  import opened Streams
  import opened Sorting
  import opened Archive
  import opened Wrap
  import opened WrapProofs
  import opened Chronicle
  import opened ChronicleProofs
  import opened Device
  import opened DeviceProofs

  // ── What later commands leave of an entry's directory ──────────────────────

  /** No later archive was written into the directory of entry `k`. */
  predicate LastIn(d: Device, k: nat)
    requires k < |d.log| == |d.names|
  {
    forall j :: k < j < |d.log| && d.log[j].Content? ==> d.names[j] != d.names[k]
  }

  /** Files are only added or overwritten, and what overwrites them is within the readers' cap. */
  ghost predicate Grown(chunks: map<Bytes, Bytes>, now: map<Bytes, Bytes>) {
    && (forall name <- chunks :: name in now)
    && forall name <- now :: (name in chunks && now[name] == chunks[name]) || |now[name]| <= MAX_STORED_CHUNK_BYTES
  }

  /** What is certain about the directory of entry `k`. */
  ghost predicate Kept(t: Tools, d: Device, k: nat)
    requires k < |d.log| == |d.names|
  {
    && d.names[k] in d.disk
    && var f := d.disk[d.names[k]];
       match d.log[k]
       case Rotation(r) => f.rotation == Some(t.encodeRotation(r))
       case Content(m, chunks) =>
         && Backed(t.crypto, m, chunks) && |m.segments| < U32_LIMIT
         && (LastIn(d, k) ==> ReadManifest(t, f.dir) == ReadBack(t, m) && f.dir.manifest.Some? && Grown(chunks, f.dir.chunks))
  }

  /** Rotation entries are only there because this device wrote them. */
  ghost predicate RotationsLogged(d: Device)
    requires |d.log| == |d.names|
  {
    forall name <- d.disk :: d.disk[name].rotation.Some? ==>
      exists k :: 0 <= k < |d.log| && d.log[k].Rotation? && d.names[k] == name
  }

  ghost predicate OnDisk(t: Tools, d: Device) {
    && |d.log| == |d.names|
    && (forall k :: 0 <= k < |d.log| ==> Kept(t, d, k))
    && RotationsLogged(d)
  }

  lemma {:induction false} WrittenFrom(base: map<Bytes, Bytes>, stored: seq<Bytes>, max: nat)
    requires forall i :: 0 <= i < |stored| ==> |stored[i]| <= max
    ensures forall name <- base :: name in Written(base, stored)
    ensures var now := Written(base, stored);
            forall name <- now :: (name in base && now[name] == base[name]) || |now[name]| <= max
  {
    if stored != [] { WrittenFrom(base, stored[..|stored| - 1], max); }
  }

  lemma ChunksOnlyGrows(t: Tools, a: WrapArgs, payload: Bytes, existing: Dir, chunks: map<Bytes, Bytes>)
    requires AeadLaws(t.crypto) && !RefusedEarly(a, payload) && Grown(chunks, existing.chunks)
    ensures Grown(chunks, ChunksOnly(t, a, payload, existing).chunks)
  {
    hide Written, AeadLaws;
    var stored := StoredOf(t, a, payload);
    forall i | 0 <= i < |stored| ensures |stored[i]| <= MAX_STORED_CHUNK_BYTES { StoredWithinCap(t, a, payload, i); }
    WrittenFrom(existing.chunks, stored, MAX_STORED_CHUNK_BYTES);
  }

  /** A write into `out` that changes chunk files only. */
  lemma ChunkWriteKeeps(t: Tools, d: Device, a: WrapArgs, payload: Bytes, out: Bytes)
    requires AeadLaws(t.crypto) && OnDisk(t, d) && !RefusedEarly(a, payload)
    ensures var f := FolderAt(d, out);
            OnDisk(t, d.(disk := d.disk[out := f.(dir := ChunksOnly(t, a, payload, f.dir))]))
  {
    hide ReadManifest, Backed, Grown, AeadLaws, ReadBack;
    var f := FolderAt(d, out);
    var d' := d.(disk := d.disk[out := f.(dir := ChunksOnly(t, a, payload, f.dir))]);
    forall k | 0 <= k < |d.log| ensures Kept(t, d', k) {
      assert Kept(t, d, k) && (LastIn(d', k) <==> LastIn(d, k));
      if d.names[k] == out && d.log[k].Content? && LastIn(d, k) {
        ChunksOnlyGrows(t, a, payload, f.dir, d.log[k].chunks);
        SameManifestFile(t, f.dir, ChunksOnly(t, a, payload, f.dir));
      }
    }
  }

  lemma SameManifestFile(t: Tools, a: Dir, b: Dir)
    requires a.manifest == b.manifest && a.sig == b.sig
    ensures ReadManifest(t, a) == ReadManifest(t, b)
  {
  }

  /** One more entry, written into `out`: earlier archives in that directory are no longer the last one there. */
  lemma EntryWriteKeeps(t: Tools, d: Device, e: Entry, out: Bytes, f: Folder, state: Option<State>)
    requires OnDisk(t, d)
    requires e.Content? ==> && f.rotation == FolderAt(d, out).rotation
                            && Backed(t.crypto, e.m, e.chunks) && |e.m.segments| < U32_LIMIT
                            && ReadManifest(t, f.dir) == ReadBack(t, e.m) && f.dir.manifest.Some? && f.dir.chunks == e.chunks
    requires e.Rotation? ==> out !in d.disk && f.rotation == Some(t.encodeRotation(e.r))
    ensures OnDisk(t, Device(state, d.disk[out := f], d.log + [e], d.names + [out]))
  {
    hide ReadManifest, Backed, ReadBack;
    var d' := Device(state, d.disk[out := f], d.log + [e], d.names + [out]);
    var n := |d.log|;
    forall k | 0 <= k < n + 1 ensures Kept(t, d', k) {
      if k < n {
        assert Kept(t, d, k) && d'.names[k] == d.names[k];
        assert d'.log[n] == e && d'.names[n] == out;
        if LastIn(d', k) { LastInEarlier(d, d', k); }
      }
    }
    forall name | name in d'.disk && d'.disk[name].rotation.Some?
      ensures exists k :: 0 <= k < n + 1 && d'.log[k].Rotation? && d'.names[k] == name
    {
      if name == out && e.Rotation? {
        assert d'.log[n].Rotation? && d'.names[n] == name;
      } else {
        var k :| 0 <= k < n && d.log[k].Rotation? && d.names[k] == name;
        assert d'.log[k].Rotation? && d'.names[k] == name;
      }
    }
  }

  lemma LastInEarlier(d: Device, d': Device, k: nat)
    requires k < |d.log| == |d.names| && d.log <= d'.log && d.names <= d'.names && |d'.log| == |d'.names| && LastIn(d', k)
    ensures LastIn(d, k)
  {
    forall j | k < j < |d.log| && d.log[j].Content? ensures d.names[j] != d.names[k] {
      assert d'.log[j].Content? && d'.names[j] == d.names[j];
    }
  }

  lemma WrapKeepsDisk(t: Tools, d: Device, a: WrapArgs, payload: Bytes, out: Bytes)
    requires ToolLaws(t) && OnDisk(t, d)
    ensures OnDisk(t, DoWrap(t, d, a, payload, out))
  {
    hide OnDisk, Wrapped, ToolLaws, EntryId, ChunksOnly, EndsWithSeal, FolderAt, ReadManifest, Backed, ReadBack;
    var outcome := WrapOutcome(t, d, a, payload, out);
    if outcome.Some? {
      var (m, dir) := outcome.value;
      var f, link := FolderAt(d, out), ResolveChronicle(d.state, t.crypto.publicOf(a.secret));
      WrappedShape(t, a, link, payload, f.dir, m, dir);
      WrappedIsBacked(t, a, link, payload, f.dir, m, dir);
      WrappedManifestFile(t, a, link, payload, f.dir, m, dir);
      EntryWriteKeeps(t, d, Content(m, dir.chunks), out, f.(dir := dir), DoWrap(t, d, a, payload, out).state);
    } else if EndsWithSeal(out) && !RefusedEarly(a, payload) {
      LawfulAead(t);
      ChunkWriteKeeps(t, d, a, payload, out);
    }
  }

  lemma WrappedManifestFile(t: Tools, a: WrapArgs, link: Option<Link>, payload: Bytes, existing: Dir, m: Manifest, d: Dir)
    requires Wrapped(t, a, link, payload, existing) == Some((m, d))
    ensures d.manifest.Some?
  {
    hide FinalManifest, Written, StoredChunks;
  }

  lemma LawfulAead(t: Tools)
    requires ToolLaws(t)
    ensures AeadLaws(t.crypto)
  {
  }

  lemma RekeyKeepsDisk(t: Tools, d: Device, o: Bytes, n: Bytes, ka: Bytes, at: Bytes, out: Bytes)
    requires OnDisk(t, d)
    ensures OnDisk(t, DoRekey(t, d, o, n, ka, at, out))
  {
    hide OnDisk, CreateRotation, EntryId;
    var r := RekeyOutcome(t, d, o, n, ka, at, out);
    if r.Some? {
      EntryWriteKeeps(t, d, Rotation(r.value), out, NO_FOLDER.(rotation := Some(t.encodeRotation(r.value))),
                      DoRekey(t, d, o, n, ka, at, out).state);
    }
  }

  /** No rotation entry lies in the working directory yet. */
  predicate NoRotations(disk: map<Bytes, Folder>) {
    forall name <- disk :: disk[name].rotation.None?
  }

  /** After any run, every directory an entry was written to holds what later commands could not change. */
  lemma {:induction false} RunKeepsDisk(t: Tools, disk: map<Bytes, Folder>, ops: seq<Op>)
    requires ToolLaws(t) && NoRotations(disk)
    ensures OnDisk(t, Run(t, disk, ops))
  {
    if ops == [] {
      assert OnDisk(t, New(disk));
    } else {
      hide OnDisk, DoWrap, DoRekey, ToolLaws, NoRotations;
      RunKeepsDisk(t, disk, ops[..|ops| - 1]);
      var d := Run(t, disk, ops[..|ops| - 1]);
      match ops[|ops| - 1]
      case WrapOp(a, payload, out) => WrapKeepsDisk(t, d, a, payload, out);
      case RekeyOp(o, n, ka, at, out) => RekeyKeepsDisk(t, d, o, n, ka, at, out);
    }
  }

  // ── Reading back ───────────────────────────────────────────────────────────

  /** Entry `k` with the chunk files found in its directory now. */
  function Now(d: Device, k: nat): Entry
    requires k < |d.log| == |d.names| && d.names[k] in d.disk
  {
    match d.log[k]
    case Rotation(r) => Rotation(r)
    case Content(m, _) => Content(m, d.disk[d.names[k]].dir.chunks)
  }

  /** What a reader finds in the directory of entry `k`: an archive's manifest as it reads back, if it does. */
  function Found(t: Tools, d: Device, k: nat): Option<Entry>
    requires k < |d.log| == |d.names| && d.names[k] in d.disk
  {
    match d.log[k]
    case Rotation(r) => Some(Rotation(r))
    case Content(m, _) =>
      match ReadBack(t, m)
      case None => None
      case Some(n) => Some(Content(n, d.disk[d.names[k]].dir.chunks))
  }

  /** What is read under the name of an entry is the one last written there, unless a rotation hides it. */
  lemma ReadsNow(t: Tools, d: Device, k: nat)
    requires ToolLaws(t) && OnDisk(t, d) && k < |d.log|
    requires d.log[k].Content? ==> LastIn(d, k) && FolderAt(d, d.names[k]).rotation.None?
    ensures d.names[k] in d.disk && ReadAt(t, d.disk, d.names[k]) == Found(t, d, k)
  {
    hide Backed, Grown, RotationsLogged, LastIn, ReadManifest, ReadBack;
    assert Kept(t, d, k);
    if d.log[k].Rotation? { assert t.decodeRotation(t.encodeRotation(d.log[k].r)) == Some(d.log[k].r); }
  }

  lemma ApartReads(t: Tools, d: Device, k: nat)
    requires ToolLaws(t) && OnDisk(t, d) && k < |d.log| && Unrepeated(d.names)
    ensures d.names[k] in d.disk && ReadAt(t, d.disk, d.names[k]) == Found(t, d, k)
    ensures Legible(t, d.log) ==> Found(t, d, k) == Some(Now(d, k))
  {
    hide ToolLaws, Backed, Grown, ReadManifest, ReadAt, ReadBack;
    assert Kept(t, d, k);
    ReadsNow(t, d, k);
  }

  lemma NamesOnDisk(t: Tools, d: Device)
    requires OnDisk(t, d)
    ensures forall k :: 0 <= k < |d.log| ==> d.names[k] in d.disk
  {
    hide Backed, Grown, ReadManifest, RotationsLogged;
    forall k | 0 <= k < |d.log| ensures d.names[k] in d.disk { assert Kept(t, d, k); }
  }

  ghost function NowLog(t: Tools, d: Device): (log: seq<Entry>)
    requires OnDisk(t, d)
    ensures |log| == |d.log| && forall k :: 0 <= k < |d.log| ==> d.names[k] in d.disk && log[k] == Now(d, k)
  {
    NamesOnDisk(t, d);
    seq(|d.log|, k requires 0 <= k < |d.log| => Now(d, k))
  }

  /** The directories of a device's entries, each once, in any order. */
  predicate Listing(d: Device, paths: seq<Bytes>) { Unrepeated(paths) && Elements(paths) == Elements(d.names) }

  function EntryOr(o: Option<Entry>, default: Entry): Entry { if o.Some? then o.value else default }

  lemma ListingReads(t: Tools, d: Device, paths: seq<Bytes>) returns (entries: seq<Entry>)
    requires ToolLaws(t) && OnDisk(t, d) && d.log != [] && Unrepeated(d.names) && Legible(t, d.log) && Listing(d, paths)
    ensures ReadsAs(t, d.disk, paths, entries) && multiset(entries) == multiset(NowLog(t, d))
  {
    hide ToolLaws, OnDisk, ReadAt, Unrepeated, Legible, Found;
    var default := NowLog(t, d)[0];
    var read := (p: Bytes) => EntryOr(ReadAt(t, d.disk, p), default);
    entries := Keys(read, paths);
    SameElementsArranged(paths, d.names);
    SameElementsSameKeys(read, paths, d.names);
    LogLengths(t, d);
    forall k | 0 <= k < |d.log| ensures ReadAt(t, d.disk, d.names[k]) == Some(NowLog(t, d)[k]) { ApartReads(t, d, k); }
    assert Keys(read, d.names) == NowLog(t, d);
    forall i | 0 <= i < |paths| ensures ReadAt(t, d.disk, paths[i]) == Some(entries[i]) {
      assert paths[i] in Elements(paths);
      var k :| 0 <= k < |d.names| && d.names[k] == paths[i];
    }
  }

  lemma LogLengths(t: Tools, d: Device)
    requires OnDisk(t, d)
    ensures |d.log| == |d.names|
  {
    hide Kept, RotationsLogged;
  }

  // ── Same manifests, other chunk files ──────────────────────────────────────

  predicate SameHead(e: Entry, f: Entry) {
    match e
    case Content(m, _) => f.Content? && f.m == m
    case Rotation(_) => f == e
  }

  predicate SameHeads(a: seq<Entry>, b: seq<Entry>) {
    |a| == |b| && forall k :: 0 <= k < |a| ==> SameHead(a[k], b[k])
  }

  lemma {:induction false} HeadsWalk(g: Bytes, a: seq<Entry>, b: seq<Entry>, k: nat)
    requires SameHeads(a, b) && k <= |a|
    ensures KeyAfter(g, a, k) == KeyAfter(g, b, k) && RotationsIn(a, k) == RotationsIn(b, k)
  {
    if k > 0 { HeadsWalk(g, a, b, k - 1); }
  }

  lemma HeadsId(c: Crypto, a: seq<Entry>, b: seq<Entry>, k: nat)
    requires SameHeads(a, b) && k < |a|
    ensures EntryId(c, a[k]) == EntryId(c, b[k]) && GenesisKey(a) == GenesisKey(b)
  {
    assert SameHead(a[k], b[k]) && SameHead(a[0], b[0]);
  }

  lemma HeadsMade(t: Tools, g: Bytes, a: seq<Entry>, b: seq<Entry>, k: nat)
    requires SameHeads(a, b) && k < |a| && Made(t, g, a, k)
    ensures Made(t, g, b, k)
  {
    hide EntryId, ManifestBytes, RotationVerifies, SameHeads;
    HeadsWalk(g, a, b, k);
    if k > 0 { HeadsId(t.crypto, a, b, k - 1); }
    HeadAt(a, b, k);
    HeadAt(a, b, 0);
  }

  lemma HeadAt(a: seq<Entry>, b: seq<Entry>, k: nat)
    requires SameHeads(a, b) && k < |a|
    ensures |a| == |b| && SameHead(a[k], b[k])
  {
    hide SameHead;
  }

  lemma HeadsAccepted(t: Tools, g: Bytes, a: seq<Entry>, b: seq<Entry>)
    requires SameHeads(a, b) && Accepted(t, g, a) && ContentsOk(t, b)
    ensures Accepted(t, g, b)
  {
    hide EntryId, ManifestBytes, RotationVerifies, ContentOk, SameHeads;
    HeadAt(a, b, 0);
    forall k | 0 <= k < |b| ensures Placed(t.crypto, b, k) && Authorized(t, g, b, k) {
      assert Placed(t.crypto, a, k) && Authorized(t, g, a, k);
      HeadsWalk(g, a, b, k);
      HeadAt(a, b, k);
      if k > 0 { HeadsId(t.crypto, a, b, k - 1); }
    }
  }

  lemma NowHeads(t: Tools, d: Device)
    requires OnDisk(t, d)
    ensures SameHeads(d.log, NowLog(t, d))
  {
    hide OnDisk;
  }

  // ── Chunk files ────────────────────────────────────────────────────────────

  /** The `.bin` files present are those of the archive, with the digests they had. */
  predicate SameFiles(c: Crypto, chunks: map<Bytes, Bytes>, now: map<Bytes, Bytes>) {
    forall name <- now :: EndsWithBin(name) ==> name in chunks && c.hash(now[name]) == c.hash(chunks[name])
  }

  lemma SegmentFile(c: Crypto, m: Manifest, chunks: map<Bytes, Bytes>, i: nat)
    requires Backed(c, m, chunks) && i < |m.segments|
    ensures var name := ChunkName(i);
            && m.segments[i].chunkFile == name && name in chunks && |chunks[name]| <= MAX_STORED_CHUNK_BYTES
            && m.segments[i].blake3Hash == Hex(c.hash(chunks[name])) && EndsWithBin(name)
  {
    hide ContinuityOk;
    ChunkNameDigits(i);
    assert SegmentOk(c, m.segments[i], chunks, i);
  }

  lemma BackedSameFiles(c: Crypto, m: Manifest, chunks: map<Bytes, Bytes>, now: map<Bytes, Bytes>)
    requires HashLaws(c) && Backed(c, m, chunks) && Backed(c, m, now) && NoStrays(m, now)
    ensures SameFiles(c, chunks, now)
  {
    hide Backed, ChunkName, EndsWithBin;
    forall name | name in now && EndsWithBin(name)
      ensures name in chunks && c.hash(now[name]) == c.hash(chunks[name])
    {
      var i :| 0 <= i < |m.segments| && m.segments[i].chunkFile == name;
      SegmentFile(c, m, chunks, i);
      SegmentFile(c, m, now, i);
      HexRoundTrip(c.hash(chunks[name]));
      HexRoundTrip(c.hash(now[name]));
    }
  }

  lemma SameFilesBacked(c: Crypto, m: Manifest, chunks: map<Bytes, Bytes>, now: map<Bytes, Bytes>)
    requires Backed(c, m, chunks) && Grown(chunks, now) && SameFiles(c, chunks, now)
    ensures Backed(c, m, now)
  {
    hide Continuity, ChunkName, EndsWithBin, Hex, HexDecode;
    forall i | 0 <= i < |m.segments|
      ensures SegmentOk(c, m.segments[i], now, i) && FileHash(c, now, i) == FileHash(c, chunks, i)
    {
      assert SegmentOk(c, m.segments[i], chunks, i);
      SegmentFile(c, m, chunks, i);
    }
    assert FileHashes(c, now, |m.segments|) == FileHashes(c, chunks, |m.segments|);
  }

  /** An archive is valid now exactly when it was when written and its files still have their digests. */
  lemma ContentNow(t: Tools, m: Manifest, chunks: map<Bytes, Bytes>, now: map<Bytes, Bytes>)
    requires HashLaws(t.crypto) && Backed(t.crypto, m, chunks) && Grown(chunks, now)
    ensures ContentOk(t, m, now) <==> ContentOk(t, m, chunks) && SameFiles(t.crypto, chunks, now)
  {
    hide Backed, ManifestValid, EndsWithBin, HashLaws;
    if ContentOk(t, m, now) { BackedSameFiles(t.crypto, m, chunks, now); }
    if ContentOk(t, m, chunks) && SameFiles(t.crypto, chunks, now) { SameFilesBacked(t.crypto, m, chunks, now); }
  }

  // ── The exact condition ────────────────────────────────────────────────────

  /** No archive's chunk files have been changed by a wrap that failed after writing over them. */
  predicate Unspoiled(c: Crypto, d: Device)
    requires |d.log| == |d.names|
  {
    forall k :: 0 <= k < |d.log| && d.log[k].Content? ==>
      d.names[k] in d.disk && SameFiles(c, d.log[k].chunks, d.disk[d.names[k]].dir.chunks)
  }

  /**
   Every wrap that succeeded was well formed, the counters stayed within their width, no two entries
   were written into one directory, and no failed wrap changed the files of an archive.
   */
  ghost predicate Orderly(t: Tools, disk: map<Bytes, Folder>, ops: seq<Op>) {
    var d := Run(t, disk, ops);
    && CallsOk(t, disk, ops) && WithinWidth(d.log)
    && |d.log| == |d.names| && Unrepeated(d.names) && Unspoiled(t.crypto, d)
  }

  lemma ContentsNow(t: Tools, d: Device)
    requires HashLaws(t.crypto) && OnDisk(t, d) && Unrepeated(d.names)
    ensures |d.log| == |d.names|
    ensures ContentsOk(t, NowLog(t, d)) <==> ContentsOk(t, d.log) && Unspoiled(t.crypto, d)
  {
    hide ContentOk, Backed, Grown, ReadManifest, SameFiles, HashLaws, RotationsLogged;
    var log := NowLog(t, d);
    forall k | 0 <= k < |d.log| && d.log[k].Content?
      ensures ContentOk(t, log[k].m, log[k].chunks) <==>
              ContentOk(t, d.log[k].m, d.log[k].chunks) && SameFiles(t.crypto, d.log[k].chunks, d.disk[d.names[k]].dir.chunks)
    {
      assert Kept(t, d, k) && LastIn(d, k);
      ContentNow(t, d.log[k].m, d.log[k].chunks, d.disk[d.names[k]].dir.chunks);
    }
    if ContentsOk(t, log) {
      forall k | 0 <= k < |d.log| && d.log[k].Content? ensures ContentOk(t, d.log[k].m, d.log[k].chunks) {
        assert log[k].Content?;
      }
    }
  }

  lemma NowMade(t: Tools, d: Device)
    requires OnDisk(t, d) && Consistent(t, d) && d.log != []
    ensures var log := NowLog(t, d);
            && GenesisKey(log) == GenesisKey(d.log) && RotationsIn(log, |log|) == RotationsIn(d.log, |d.log|)
            && forall k :: 0 <= k < |log| ==> Made(t, GenesisKey(log), log, k)
  {
    hide OnDisk, Made, HeadOf, SameHeads, GenesisKey, RotationsIn;
    var log := NowLog(t, d);
    NowHeads(t, d);
    HeadsId(t.crypto, d.log, log, 0);
    HeadsWalk("", d.log, log, |log|);
    forall k | 0 <= k < |log| ensures Made(t, GenesisKey(log), log, k) { HeadsMade(t, GenesisKey(log), d.log, log, k); }
  }

  /** What is on disk now is accepted, as a whole, exactly when the run was orderly. */
  lemma NowAccepted(t: Tools, disk: map<Bytes, Folder>, ops: seq<Op>)
    requires ToolLaws(t) && NoRotations(disk) && Run(t, disk, ops).log != []
    ensures var d := Run(t, disk, ops);
            && OnDisk(t, d) && Consistent(t, d)
            && (Orderly(t, disk, ops) ==> Legible(t, d.log))
            && (Unrepeated(d.names) && Legible(t, d.log) ==>
                  (Accepted(t, GenesisKey(d.log), NowLog(t, d)) <==> Orderly(t, disk, ops)))
  {
    hide Legible, Run, OnDisk, Consistent, Accepted, CallsOk, ToolLaws, ContentsOk, GenesisKey, RotationsIn, Made, SameHeads,
         Unrepeated, Unspoiled, NoRotations;
    var d := Run(t, disk, ops);
    RunKeeps(t, disk, ops);
    RunKeepsDisk(t, disk, ops);
    if Orderly(t, disk, ops) { ContentsAreCalls(t, disk, ops); }
    if Unrepeated(d.names) && Legible(t, d.log) {
      var log, g := NowLog(t, d), GenesisKey(d.log);
      LawfulTools(t);
      LogLengths(t, d);
      ContentsNow(t, d);
      NowMade(t, d);
      NowHeads(t, d);
      RunAccepted(t, disk, ops);
      if Accepted(t, g, log) {
        OverflowRefused(t, g, log);
        AcceptedContents(t, g, log);
        ContentsAreCalls(t, disk, ops);
      }
      if Orderly(t, disk, ops) {
        ContentsAreCalls(t, disk, ops);
        HeadsAccepted(t, g, d.log, log);
      }
    }
  }

  lemma ListingCount(d: Device, paths: seq<Bytes>)
    requires Listing(d, paths)
    ensures |paths| <= |d.names| && (|paths| == |d.names| <==> Unrepeated(d.names))
  {
    CountElements(paths);
    CountElements(d.names);
  }

  /** The signature of some archive passes for the text it reads back as, which was never signed. */
  ghost predicate SomeTransfers(t: Tools, log: seq<Entry>) {
    exists k :: 0 <= k < |log| && log[k].Content? && SignatureTransfers(t, log[k].m)
  }

  lemma LegibleSigned(t: Tools, log: seq<Entry>)
    requires Legible(t, log)
    ensures !SomeTransfers(t, log)
  {
    hide ReadBack, ManifestBytes;
  }

  /** An archive found in an accepted chronicle is the one signed, or its signature passes for another. */
  lemma FoundIsSigned(t: Tools, g: Bytes, log: seq<Entry>, k: nat, accepted: seq<Entry>, n: Manifest, chunks: map<Bytes, Bytes>)
    requires k < |log| && log[k].Content? && Made(t, g, log, k)
    requires Accepted(t, g, accepted) && Content(n, chunks) in accepted && ReadBack(t, log[k].m) == Some(n)
    ensures n == log[k].m || SignatureTransfers(t, log[k].m)
  {
    hide EntryId, ManifestBytes, RotationVerifies, ReadBack, Placed, KeyAfter, RotationsIn, NoStrays, Backed, ManifestTree;
    var m := log[k].m;
    var p :| 0 <= p < |accepted| && accepted[p] == Content(n, chunks);
    assert Authorized(t, g, accepted, p);
    ReadBackKeeps(t, m, n);
    assert n.device == m.device && n.signature == m.signature;
    if n != m { ReadBackText(t, m, n); }
  }

  lemma AcceptedIsLegible(t: Tools, d: Device, paths: seq<Bytes>, k: nat)
    requires ToolLaws(t) && OnDisk(t, d) && Consistent(t, d) && Unrepeated(d.names) && Listing(d, paths)
    requires k < |d.log| && d.log[k].Content? && PathsAccepted(t, GenesisKey(d.log), d.disk, paths, None)
    ensures ReadBack(t, d.log[k].m) == Some(d.log[k].m) || SignatureTransfers(t, d.log[k].m)
  {
    hide ToolLaws, OnDisk, Made, HeadOf, Accepted, SortBySeq, ReadAt, ReadBack, SignatureTransfers, GenesisKey, Unrepeated;
    var g := GenesisKey(d.log);
    LogLengths(t, d);
    ApartReads(t, d, k);
    var entries :| ReadsAs(t, d.disk, paths, entries) && AcceptedWith(t, g, SortBySeq(entries), None);
    assert d.names[k] in Elements(d.names);
    var i :| 0 <= i < |paths| && paths[i] == d.names[k];
    var log := SortBySeq(entries);
    assert entries[i] in multiset(entries) && multiset(log) == multiset(entries);
    var e: Entry := entries[i];
    FoundIsSigned(t, g, d.log, k, log, e.m, e.chunks);
  }

  /**
   The entries a run wrote, handed to `verify-chronicle` in any order, are accepted and all there
   exactly when the run was orderly, short of a signature that passes for a text never signed; and then
   the state file holds what the verifier reports.
   */
  lemma ProducedChronicleVerifies(t: Tools, disk: map<Bytes, Folder>, ops: seq<Op>, paths: seq<Bytes>)
    requires ToolLaws(t) && NoRotations(disk) && Run(t, disk, ops).log != [] && Listing(Run(t, disk, ops), paths)
    ensures var d := Run(t, disk, ops);
            var g := GenesisKey(d.log);
            && (Orderly(t, disk, ops) ==> PathsAccepted(t, g, d.disk, paths, None) && |paths| == |d.log|)
            && (PathsAccepted(t, g, d.disk, paths, None) && |paths| == |d.log| ==>
                  Orderly(t, disk, ops) || SomeTransfers(t, d.log))
            && (Orderly(t, disk, ops) ==>
                  var report := ReportOf(t.crypto, g, d.log);
                  d.state == Some(State(report.identity, report.tipSequence, report.tip, report.epoch)))
  {
    hide Run, OnDisk, Consistent, Accepted, CallsOk, ToolLaws, GenesisKey, RotationsIn, SortBySeq, ReadsAs, ReadBack,
         Unrepeated, Unspoiled, NoRotations, Listing, ReportOf, PathsAccepted, SignatureTransfers;
    var d := Run(t, disk, ops);
    var g := GenesisKey(d.log);
    NowAccepted(t, disk, ops);
    LogLengths(t, d);
    ListingCount(d, paths);
    if Unrepeated(d.names) {
      if Legible(t, d.log) {
        var entries := ListingReads(t, d, paths);
        ReadAccepted(t, d, paths, entries);
      } else if PathsAccepted(t, g, d.disk, paths, None) {
        var k :| 0 <= k < |d.log| && d.log[k].Content? && ReadBack(t, d.log[k].m) != Some(d.log[k].m);
        AcceptedIsLegible(t, d, paths, k);
      }
    }
    if Orderly(t, disk, ops) { StateIsReport(t, d); }
  }

  /** Entries that are an arrangement of what is on disk now are accepted exactly when that is. */
  lemma ReadAccepted(t: Tools, d: Device, paths: seq<Bytes>, entries: seq<Entry>)
    requires OnDisk(t, d) && Consistent(t, d) && d.log != []
    requires ReadsAs(t, d.disk, paths, entries) && multiset(entries) == multiset(NowLog(t, d))
    ensures PathsAccepted(t, GenesisKey(d.log), d.disk, paths, None) <==> Accepted(t, GenesisKey(d.log), NowLog(t, d))
    ensures Accepted(t, GenesisKey(d.log), NowLog(t, d)) ==> SortBySeq(entries) == NowLog(t, d)
  {
    hide OnDisk, Consistent, Accepted, SortBySeq, ReadsAs, GenesisKey, Made;
    var g, log := GenesisKey(d.log), NowLog(t, d);
    NowMade(t, d);
    if Accepted(t, g, log) {
      forall k | 0 <= k < |log| ensures SeqOf(log[k]) == Some(k) { AcceptedPlace(t, g, log, k); }
      AnyOrder(log, entries);
    }
    forall other | ReadsAs(t, d.disk, paths, other) ensures other == entries { ReadsOnce(t, d.disk, paths, other, entries); }
    if Accepted(t, g, SortBySeq(entries)) { MadePermuted(t, g, log, SortBySeq(entries)); }
  }

  // ── Scanning the directory ─────────────────────────────────────────────────

  /** No entry lies in the working directory yet. */
  predicate NoEntries(disk: map<Bytes, Folder>) { forall name <- disk :: !IsEntry(disk[name]) }

  lemma StepEntries(t: Tools, d: Device, op: Op)
    requires EntryNames(d.disk) == Elements(d.names)
    ensures EntryNames(Apply(t, d, op).disk) == Elements(Apply(t, d, op).names)
  {
    hide Wrapped, EntryId, CreateRotation, EndsWithSeal, ResolveChronicle, StoredOf, Written;
    if op.WrapOp? && WrapOutcome(t, d, op.args, op.payload, op.out).Some? {
      var (m, dir) := WrapOutcome(t, d, op.args, op.payload, op.out).value;
      WrappedManifestFile(t, op.args, ResolveChronicle(d.state, t.crypto.publicOf(op.args.secret)), op.payload, FolderAt(d, op.out).dir, m, dir);
    }
    var d' := Apply(t, d, op);
    forall name ensures name in EntryNames(d'.disk) <==> name in Elements(d'.names) {
      assert name in EntryNames(d.disk) <==> name in Elements(d.names);
    }
  }

  /** The entry directories among the device's are those it has written entries to. */
  lemma {:induction false} RunEntries(t: Tools, disk: map<Bytes, Folder>, ops: seq<Op>)
    requires NoEntries(disk)
    ensures EntryNames(Run(t, disk, ops).disk) == Elements(Run(t, disk, ops).names)
  {
    if ops != [] {
      hide Apply, EntryNames;
      RunEntries(t, disk, ops[..|ops| - 1]);
      StepEntries(t, Run(t, disk, ops[..|ops| - 1]), ops[|ops| - 1]);
    }
  }

  /**
   A device that started in a directory without entries: scanning the directory finds its entries, each
   once, and the scan is accepted and complete exactly when the run was orderly, short of a signature
   that passes for a text never signed.
   */
  lemma DirectoryVerifies(t: Tools, disk: map<Bytes, Folder>, ops: seq<Op>, paths: seq<Bytes>)
    requires ToolLaws(t) && NoEntries(disk) && Run(t, disk, ops).log != []
    requires Unrepeated(paths) && Elements(paths) == EntryNames(Run(t, disk, ops).disk)
    ensures var d := Run(t, disk, ops);
            && Listing(d, paths)
            && (Orderly(t, disk, ops) ==> PathsAccepted(t, GenesisKey(d.log), d.disk, paths, None) && |paths| == |d.log|)
            && (PathsAccepted(t, GenesisKey(d.log), d.disk, paths, None) && |paths| == |d.log| ==>
                  Orderly(t, disk, ops) || SomeTransfers(t, d.log))
  {
    hide Run, ToolLaws, Orderly, PathsAccepted, SomeTransfers, GenesisKey, IsEntry, Unrepeated;
    var d := Run(t, disk, ops);
    RunEntries(t, disk, ops);
    assert Elements(paths) == Elements(d.names);
    NoEntriesNoRotations(disk);
    ProducedChronicleVerifies(t, disk, ops, paths);
  }

  lemma NoEntriesNoRotations(disk: map<Bytes, Folder>)
    requires NoEntries(disk)
    ensures NoRotations(disk)
  {
  }

  // ── Without counting the entries ───────────────────────────────────────────

  /** The newest entry is not an archive written beside a rotation entry, which is read in its place. */
  predicate NewestVisible(d: Device)
    requires 0 < |d.log| == |d.names|
  {
    var n := |d.log| - 1;
    d.log[n].Rotation? || FolderAt(d, d.names[n]).rotation.None?
  }

  lemma NewestReads(t: Tools, d: Device)
    requires ToolLaws(t) && OnDisk(t, d) && Consistent(t, d) && d.log != [] && |d.log| == |d.names|
    requires NewestVisible(d) && |d.log| <= U64_LIMIT
    ensures var e := ReadAt(t, d.disk, d.names[|d.log| - 1]); e.Some? ==> SeqOf(e.value) == Some(|d.log| - 1)
  {
    hide OnDisk, ToolLaws, ReadAt, Made, HeadOf;
    var n := |d.log| - 1;
    ReadsNow(t, d, n);
    MadeSeq(t, GenesisKey(d.log), d.log, n);
  }

  /** An accepted chronicle reaches as far as the number of any entry in it. */
  lemma AcceptedLength(t: Tools, g: Bytes, entries: seq<Entry>, e: Entry, n: nat)
    requires Accepted(t, g, SortBySeq(entries)) && e in entries && SeqOf(e) == Some(n)
    ensures n < |entries|
  {
    hide Accepted;
    var log := SortBySeq(entries);
    var k :| 0 <= k < |log| && log[k] == e;
    AcceptedPlace(t, g, log, k);
  }

  /** What is accepted is all there, as long as the newest archive was not written beside a rotation entry. */
  lemma AcceptedIsComplete(t: Tools, d: Device, paths: seq<Bytes>)
    requires ToolLaws(t) && OnDisk(t, d) && Consistent(t, d) && Listing(d, paths)
    requires 0 < |d.log| == |d.names| && |d.log| <= U64_LIMIT && NewestVisible(d)
    requires PathsAccepted(t, GenesisKey(d.log), d.disk, paths, None)
    ensures |paths| == |d.log|
  {
    hide OnDisk, Consistent, Accepted, ToolLaws, GenesisKey, SortBySeq, NewestVisible, ReadAt;
    var g, n := GenesisKey(d.log), |d.log| - 1;
    ListingCount(d, paths);
    NewestReads(t, d);
    var entries :| ReadsAs(t, d.disk, paths, entries) && AcceptedWith(t, g, SortBySeq(entries), None);
    assert d.names[n] in Elements(d.names);
    var i :| 0 <= i < |paths| && paths[i] == d.names[n];
    AcceptedLength(t, g, entries, entries[i], n);
  }

  /**
   Acceptance alone: as long as the newest archive was not written beside a rotation entry, the
   entries on disk are accepted exactly when the run was orderly, short of a signature that passes for a
   text never signed.
   */
  lemma AcceptedExactly(t: Tools, disk: map<Bytes, Folder>, ops: seq<Op>, paths: seq<Bytes>)
    requires ToolLaws(t) && NoRotations(disk) && Run(t, disk, ops).log != [] && Listing(Run(t, disk, ops), paths)
    requires var d := Run(t, disk, ops); |d.log| == |d.names| && |d.log| <= U64_LIMIT && NewestVisible(d)
    ensures var d := Run(t, disk, ops);
            && (Orderly(t, disk, ops) ==> PathsAccepted(t, GenesisKey(d.log), d.disk, paths, None))
            && (PathsAccepted(t, GenesisKey(d.log), d.disk, paths, None) ==>
                  Orderly(t, disk, ops) || SomeTransfers(t, d.log))
  {
    hide Run, OnDisk, Consistent, ToolLaws, GenesisKey, NoRotations, Orderly, NewestVisible, PathsAccepted, SomeTransfers;
    var d := Run(t, disk, ops);
    ProducedChronicleVerifies(t, disk, ops, paths);
    if PathsAccepted(t, GenesisKey(d.log), d.disk, paths, None) {
      NowAccepted(t, disk, ops);
      AcceptedIsComplete(t, d, paths);
    }
  }

  /** Two archives in one directory: only the second is left, and the verifier finds a gap. */
  lemma OneDirectoryTwice(t: Tools, disk: map<Bytes, Folder>, ops: seq<Op>, paths: seq<Bytes>, j: nat, k: nat)
    requires ToolLaws(t) && NoRotations(disk) && Listing(Run(t, disk, ops), paths)
    requires var d := Run(t, disk, ops);
             && j < k < |d.log| == |d.names| && |d.log| <= U64_LIMIT
             && d.names[j] == d.names[k] && NewestVisible(d)
    ensures var d := Run(t, disk, ops); !PathsAccepted(t, GenesisKey(d.log), d.disk, paths, None)
  {
    hide Run, PathsAccepted, ToolLaws, NoRotations, NewestVisible, Orderly, Listing, OnDisk, Consistent;
    var d := Run(t, disk, ops);
    NowAccepted(t, disk, ops);
    ListingCount(d, paths);
    if PathsAccepted(t, GenesisKey(d.log), d.disk, paths, None) { AcceptedIsComplete(t, d, paths); }
  }

  /** The shortest such run: two wraps into `out`, both of which succeed. */
  lemma TwoWrapsOneOutput(t: Tools, a: WrapArgs, payload: Bytes, b: WrapArgs, other: Bytes, out: Bytes)
    requires ToolLaws(t) && |Run(t, map[], [WrapOp(a, payload, out), WrapOp(b, other, out)]).log| == 2
    ensures var d := Run(t, map[], [WrapOp(a, payload, out), WrapOp(b, other, out)]);
            && d.state.Some? && !PathsAccepted(t, GenesisKey(d.log), d.disk, [out], None)
  {
    hide Wrapped, ChunksOnly, EntryId, ToolLaws, PathsAccepted, EndsWithSeal;
    var ops := [WrapOp(a, payload, out), WrapOp(b, other, out)];
    var d := Run(t, map[], ops);
    RunOneMore(t, map[], [], ops[0]);
    RunOneMore(t, map[], [ops[0]], ops[1]);
    assert [] + [ops[0]] == [ops[0]] && [ops[0]] + [ops[1]] == ops;
    assert d.names == [out, out] && d.log[1].Content? && d.disk[out].rotation.None?;
    assert Elements([out]) == Elements(d.names);
    OneDirectoryTwice(t, map[], ops, [out], 0, 1);
  }

  /** A manifest that does not read back is refused whatever else lies on disk, and for good. */
  lemma UnreadableEntry(t: Tools, d: Device, paths: seq<Bytes>, k: nat, genesis: Bytes, receipt: Option<Receipt>)
    requires ToolLaws(t) && OnDisk(t, d) && Listing(d, paths) && k < |d.log| && d.log[k].Content?
    requires LastIn(d, k) && FolderAt(d, d.names[k]).rotation.None? && ReadBack(t, d.log[k].m).None?
    ensures !PathsAccepted(t, genesis, d.disk, paths, receipt)
  {
    hide ToolLaws, OnDisk, LastIn, ReadBack, ReadAt, AcceptedWith, SortBySeq;
    LogLengths(t, d);
    ReadsNow(t, d, k);
    assert d.names[k] in Elements(d.names);
    var i :| 0 <= i < |paths| && paths[i] == d.names[k];
    assert ReadAt(t, d.disk, paths[i]).None?;
  }

  /** A wrap with a chunk duration that is not finite succeeds, and nobody accepts the chronicle it is in. */
  lemma NotFiniteWrap(t: Tools, disk: map<Bytes, Folder>, ops: seq<Op>, op: Op, paths: seq<Bytes>, genesis: Bytes)
    requires ToolLaws(t) && NoRotations(disk) && op.WrapOp? && NotFinite(op.args.duration)
    requires WrapOutcome(t, Run(t, disk, ops), op.args, op.payload, op.out).Some?
    requires FolderAt(Run(t, disk, ops), op.out).rotation.None? && Listing(Run(t, disk, ops + [op]), paths)
    ensures var d, d' := Run(t, disk, ops), Run(t, disk, ops + [op]);
            |d'.log| == |d.log| + 1 && d'.state.Some? && !PathsAccepted(t, genesis, d'.disk, paths, None)
  {
    hide ToolLaws, OnDisk, Wrapped, EntryId, EndsWithSeal, ReadBack, PathsAccepted, Listing, FinalManifest, ChunksOnly, StoredOf;
    var d, d' := Run(t, disk, ops), Run(t, disk, ops + [op]);
    RunOneMore(t, disk, ops, op);
    RunKeepsDisk(t, disk, ops);
    RunKeepsDisk(t, disk, ops + [op]);
    LogLengths(t, d);
    LogLengths(t, d');
    var (m, dir) := WrapOutcome(t, d, op.args, op.payload, op.out).value;
    var link := ResolveChronicle(d.state, t.crypto.publicOf(op.args.secret));
    WrappedShape(t, op.args, link, op.payload, FolderAt(d, op.out).dir, m, dir);
    WrappedReadBack(t, op.args, link, StoredOf(t, op.args, op.payload), m);
    NotFiniteUnread(t, op.args.duration);
    UnreadableEntry(t, d', paths, |d.log|, genesis, None);
  }

  lemma NotFiniteUnread(t: Tools, n: NumText)
    requires ToolLaws(t) && NotFinite(n)
    ensures t.readNumber(n).None?
  {
  }

  /**
   An archive written beside a rotation entry is not seen at all: the disk verifies as before, while
   the state file has moved on.
   */
  lemma HiddenBehindRotation(t: Tools, disk: map<Bytes, Folder>, ops: seq<Op>, op: Op, paths: seq<Bytes>)
    requires ToolLaws(t) && NoRotations(disk) && Run(t, disk, ops).log != [] && Listing(Run(t, disk, ops), paths)
    requires Orderly(t, disk, ops) && op.WrapOp?
    requires var d := Run(t, disk, ops);
             && op.out in d.names && FolderAt(d, op.out).rotation.Some?
             && WrapOutcome(t, d, op.args, op.payload, op.out).Some?
    ensures var d, d' := Run(t, disk, ops), Run(t, disk, ops + [op]);
            && Listing(d', paths) && |d'.log| == |d.log| + 1
            && PathsAccepted(t, GenesisKey(d.log), d'.disk, paths, None)
  {
    hide Orderly, ToolLaws, Wrapped, EntryId, EndsWithSeal, OnDisk, Consistent, CallsOk;
    var d, d' := Run(t, disk, ops), Run(t, disk, ops + [op]);
    assert (ops + [op])[..|ops|] == ops;
    ProducedChronicleVerifies(t, disk, ops, paths);
    NowAccepted(t, disk, ops);
    assert Elements(d'.names) == Elements(d.names);
    forall p ensures ReadAt(t, d'.disk, p) == ReadAt(t, d.disk, p) {
      if p == op.out { InDisk(t, d, p); }
    }
    var entries :| ReadsAs(t, d.disk, paths, entries) && AcceptedWith(t, GenesisKey(d.log), SortBySeq(entries), None);
    assert ReadsAs(t, d'.disk, paths, entries);
  }

  lemma InDisk(t: Tools, d: Device, name: Bytes)
    requires OnDisk(t, d) && name in d.names
    ensures name in d.disk
  {
    hide Backed, Grown, ReadManifest, RotationsLogged;
    var k :| 0 <= k < |d.names| && d.names[k] == name;
    assert Kept(t, d, k);
  }

  // ── Wraps that fail half-way ───────────────────────────────────────────────

  lemma {:induction false} WrittenNames(base: map<Bytes, Bytes>, stored: seq<Bytes>, i: nat)
    requires i < |stored| && i < U32_LIMIT
    ensures ChunkName(i) in Written(base, stored)
  {
    var last := |stored| - 1;
    if i < last { WrittenNames(base, stored[..last], i); }
  }

  /** What a wrap writes before failing leaves the archive already there valid, stated before the call. */
  predicate Harmless(c: Crypto, m: Manifest, chunks: map<Bytes, Bytes>, stored: seq<Bytes>) {
    |stored| <= |m.segments| &&
    forall i :: 0 <= i < |stored| ==> ChunkName(i) in chunks && c.hash(stored[i]) == c.hash(chunks[ChunkName(i)])
  }

  /**
   A wrap that fails after its chunks were written leaves a valid archive in its output directory
   valid, exactly when it wrote no more chunks than the archive has, each with the digest of the file
   it overwrote.
   */
  lemma FailedWrapExactly(t: Tools, a: WrapArgs, payload: Bytes, m: Manifest, dir: Dir)
    requires HashLaws(t.crypto) && AeadLaws(t.crypto) && !RefusedEarly(a, payload)
    requires ContentOk(t, m, dir.chunks) && |m.segments| < U32_LIMIT
    ensures ContentOk(t, m, ChunksOnly(t, a, payload, dir).chunks) <==>
            Harmless(t.crypto, m, dir.chunks, StoredOf(t, a, payload))
  {
    hide Backed, ManifestValid, NoStrays, Written, AeadLaws, HashLaws, StoredOf;
    var c, stored, chunks, now := t.crypto, StoredOf(t, a, payload), dir.chunks, ChunksOnly(t, a, payload, dir).chunks;
    assert now == Written(chunks, stored) by { StoredAre(t, a, payload); }
    assert Grown(chunks, chunks);
    ChunksOnlyGrows(t, a, payload, dir, chunks);
    ContentNow(t, m, chunks, now);
    if SameFiles(c, chunks, now) { SameFilesHarmless(c, m, chunks, stored); }
    if Harmless(c, m, chunks, stored) { HarmlessSameFiles(c, m, chunks, stored); }
  }

  lemma StoredAre(t: Tools, a: WrapArgs, payload: Bytes)
    ensures StoredOf(t, a, payload) == StoredChunks(t.crypto, a, Pieces(payload, a.chunkSize))
  {
  }

  lemma SameFilesHarmless(c: Crypto, m: Manifest, chunks: map<Bytes, Bytes>, stored: seq<Bytes>)
    requires Backed(c, m, chunks) && NoStrays(m, chunks) && |m.segments| < U32_LIMIT
    requires SameFiles(c, chunks, Written(chunks, stored))
    ensures Harmless(c, m, chunks, stored)
  {
    hide Backed, Written, ChunkName, EndsWithBin;
    var now := Written(chunks, stored);
    var n := |m.segments|;
    if |stored| > n {
      WrittenNames(chunks, stored, n);
      ChunkNameDigits(n);
      var i :| 0 <= i < n && m.segments[i].chunkFile == ChunkName(n);
      SegmentFile(c, m, chunks, i);
      ChunkNameInjective(i, n);
    }
    forall i | 0 <= i < |stored|
      ensures ChunkName(i) in chunks && c.hash(stored[i]) == c.hash(chunks[ChunkName(i)])
    {
      WrittenAt(chunks, stored, i);
      ChunkNameDigits(i);
    }
  }

  lemma HarmlessSameFiles(c: Crypto, m: Manifest, chunks: map<Bytes, Bytes>, stored: seq<Bytes>)
    requires |m.segments| < U32_LIMIT && Harmless(c, m, chunks, stored)
    ensures SameFiles(c, chunks, Written(chunks, stored))
  {
    hide Written, ChunkName, EndsWithBin;
    var now := Written(chunks, stored);
    forall name | name in now && EndsWithBin(name) ensures name in chunks && c.hash(now[name]) == c.hash(chunks[name]) {
      WrittenElsewhere(chunks, stored, name);
      if i :| 0 <= i < |stored| && ChunkName(i) == name { WrittenAt(chunks, stored, i); }
    }
  }

  lemma FailedWrapDevice(t: Tools, disk: map<Bytes, Folder>, ops: seq<Op>, op: Op)
    requires op.WrapOp? && WrapOutcome(t, Run(t, disk, ops), op.args, op.payload, op.out).None?
    requires EndsWithSeal(op.out) && !RefusedEarly(op.args, op.payload)
    ensures var d := Run(t, disk, ops);
            var f := FolderAt(d, op.out);
            Run(t, disk, ops + [op]) == d.(disk := d.disk[op.out := f.(dir := ChunksOnly(t, op.args, op.payload, f.dir))])
    ensures CallsOk(t, disk, ops + [op]) <==> CallsOk(t, disk, ops)
  {
    hide ChunksOnly, WrapOutcome, CallOk, EndsWithSeal;
    RunOneMore(t, disk, ops, op);
    assert (ops + [op])[..|ops|] == ops;
  }

  /** Orderliness of an otherwise orderly run after a failed wrap into the directory of archive `k`. */
  lemma FailedWrapSpoils(t: Tools, d: Device, d': Device, a: WrapArgs, payload: Bytes, k: nat)
    requires ToolLaws(t) && OnDisk(t, d) && OnDisk(t, d') && !RefusedEarly(a, payload) && k < |d.log| && d.log[k].Content?
    requires Unrepeated(d.names) && Unspoiled(t.crypto, d) && ContentsOk(t, d.log) && d.names[k] in d.disk
    requires var f := d.disk[d.names[k]];
             d' == d.(disk := d.disk[d.names[k] := f.(dir := ChunksOnly(t, a, payload, f.dir))])
    ensures Unspoiled(t.crypto, d') <==>
            Harmless(t.crypto, d.log[k].m, d.disk[d.names[k]].dir.chunks, StoredOf(t, a, payload))
  {
    hide ContentOk, Backed, Grown, ReadManifest, SameFiles, RotationsLogged, ToolLaws, Harmless, ChunksOnly, StoredOf;
    var m, chunks, dir := d.log[k].m, d.log[k].chunks, d.disk[d.names[k]].dir;
    var now := ChunksOnly(t, a, payload, dir).chunks;
    assert Kept(t, d, k) && Kept(t, d', k) && LastIn(d, k) && LastIn(d', k);
    LawfulTools(t);
    LawfulAead(t);
    ContentNow(t, m, chunks, dir.chunks);
    ContentNow(t, m, chunks, now);
    FailedWrapExactly(t, a, payload, m, dir);
    assert SameFiles(t.crypto, chunks, now) <==> Harmless(t.crypto, m, dir.chunks, StoredOf(t, a, payload));
    assert d'.disk[d'.names[k]].dir.chunks == now;
    forall j | 0 <= j < |d.log| && j != k && d.log[j].Content?
      ensures d'.names[j] in d'.disk && SameFiles(t.crypto, d'.log[j].chunks, d'.disk[d'.names[j]].dir.chunks)
    {
      assert d.names[j] != d.names[k];
    }
  }

  /**
   After an orderly run, a wrap into the directory of an earlier archive that fails late leaves a
   chronicle the verifier accepts, exactly when what it wrote was harmless.
   */
  lemma FailedWrapVerifies(t: Tools, disk: map<Bytes, Folder>, ops: seq<Op>, op: Op, k: nat, paths: seq<Bytes>)
    requires ToolLaws(t) && NoRotations(disk) && Orderly(t, disk, ops) && Listing(Run(t, disk, ops), paths)
    requires op.WrapOp? && WrapOutcome(t, Run(t, disk, ops), op.args, op.payload, op.out).None?
    requires EndsWithSeal(op.out) && !RefusedEarly(op.args, op.payload)
    requires var d := Run(t, disk, ops); k < |d.log| && d.log[k].Content? && d.names[k] == op.out
    ensures var d, d' := Run(t, disk, ops), Run(t, disk, ops + [op]);
            PathsAccepted(t, GenesisKey(d.log), d'.disk, paths, None) <==>
            Harmless(t.crypto, d.log[k].m, FolderAt(d, op.out).dir.chunks, StoredOf(t, op.args, op.payload))
  {
    hide Run, CallsOk, ToolLaws, NoRotations, WrapOutcome, ContentsOk, OnDisk, Consistent, Harmless, PathsAccepted,
         Unrepeated, Unspoiled, EndsWithSeal, StoredOf, GenesisKey, ChunksOnly, Legible, SomeTransfers;
    var d, d' := Run(t, disk, ops), Run(t, disk, ops + [op]);
    FailedWrapDevice(t, disk, ops, op);
    RunKeepsDisk(t, disk, ops);
    RunKeepsDisk(t, disk, ops + [op]);
    InDisk(t, d, op.out);
    ContentsAreCalls(t, disk, ops);
    FailedWrapSpoils(t, d, d', op.args, op.payload, k);
    LegibleSigned(t, d.log);
    ProducedChronicleVerifies(t, disk, ops + [op], paths);
    ListingCount(d, paths);
  }

  // ── Orderly runs, told from the calls ──────────────────────────────────────

  /** If the call fails after writing its chunks into the directory of an archive, what it writes is harmless. */
  predicate HarmlessCall(t: Tools, d: Device, op: Op)
    requires |d.log| == |d.names|
  {
    && op.WrapOp? && WrapOutcome(t, d, op.args, op.payload, op.out).None?
    && EndsWithSeal(op.out) && !RefusedEarly(op.args, op.payload) ==>
      forall k :: 0 <= k < |d.log| && d.log[k].Content? && d.names[k] == op.out ==>
        Harmless(t.crypto, d.log[k].m, FolderAt(d, op.out).dir.chunks, StoredOf(t, op.args, op.payload))
  }

  predicate HarmlessCalls(t: Tools, disk: map<Bytes, Folder>, ops: seq<Op>) {
    ops == [] ||
    (var before, op := ops[..|ops| - 1], ops[|ops| - 1];
     var d := Run(t, disk, before);
     HarmlessCalls(t, disk, before) && |d.log| == |d.names| && HarmlessCall(t, d, op))
  }

  lemma SameFilesTransitive(c: Crypto, x: map<Bytes, Bytes>, y: map<Bytes, Bytes>, z: map<Bytes, Bytes>)
    requires SameFiles(c, x, y) && SameFiles(c, y, z)
    ensures SameFiles(c, x, z)
  {
    hide EndsWithBin;
  }

  /** An archive's files stay as they were when a harmless wrap fails in its directory. */
  lemma HarmlessKeepsFiles(t: Tools, d: Device, op: Op, k: nat)
    requires OnDisk(t, d) && k < |d.log| && d.log[k].Content? && op.WrapOp? && d.names[k] == op.out
    requires SameFiles(t.crypto, d.log[k].chunks, FolderAt(d, op.out).dir.chunks)
    requires Harmless(t.crypto, d.log[k].m, FolderAt(d, op.out).dir.chunks, StoredOf(t, op.args, op.payload))
    ensures SameFiles(t.crypto, d.log[k].chunks, ChunksOnly(t, op.args, op.payload, FolderAt(d, op.out).dir).chunks)
  {
    hide Backed, Grown, ReadManifest, ReadBack, SameFiles, RotationsLogged, Harmless, Written, LastIn, Pieces, StoredChunks;
    assert Kept(t, d, k);
    var now, stored := FolderAt(d, op.out).dir.chunks, StoredOf(t, op.args, op.payload);
    HarmlessSameFiles(t.crypto, d.log[k].m, now, stored);
    SameFilesTransitive(t.crypto, d.log[k].chunks, now, Written(now, stored));
  }

  lemma HarmlessStep(t: Tools, d: Device, op: Op)
    requires OnDisk(t, d) && |d.log| == |d.names| && Unspoiled(t.crypto, d) && HarmlessCall(t, d, op)
    requires Unrepeated(Apply(t, d, op).names)
    ensures var d' := Apply(t, d, op); |d'.log| == |d'.names| && Unspoiled(t.crypto, d')
  {
    hide OnDisk, SameFiles, Harmless, ChunksOnly, Wrapped, EntryId, CreateRotation, EndsWithSeal, StoredOf, ResolveChronicle;
    var d' := Apply(t, d, op);
    var n := |d.log|;
    forall k | 0 <= k < |d'.log| && d'.log[k].Content?
      ensures d'.names[k] in d'.disk && SameFiles(t.crypto, d'.log[k].chunks, d'.disk[d'.names[k]].dir.chunks)
    {
      if k == n {
        SameFilesSelf(t.crypto, d'.log[k].chunks);
      } else {
        assert d'.log[k] == d.log[k] && d'.names[k] == d.names[k];
        if |d'.log| > n { assert d'.names[n] == op.out && d'.names[k] != d'.names[n]; }
        else if op.WrapOp? && d.names[k] == op.out && d'.disk != d.disk { HarmlessKeepsFiles(t, d, op, k); }
      }
    }
  }

  lemma SameFilesSelf(c: Crypto, chunks: map<Bytes, Bytes>)
    ensures SameFiles(c, chunks, chunks)
  {
  }

  lemma UnrepeatedPrefix(s: seq<Bytes>, longer: seq<Bytes>)
    requires s <= longer && Unrepeated(longer)
    ensures Unrepeated(s)
  {
  }

  lemma NamesGrow(t: Tools, d: Device, op: Op)
    ensures d.names <= Apply(t, d, op).names
  {
    hide Wrapped, CreateRotation, EntryId, ResolveChronicle, FolderAt, EndsWithSeal, ChunksOnly;
  }

  lemma {:induction false} HarmlessUnspoiled(t: Tools, disk: map<Bytes, Folder>, ops: seq<Op>)
    requires ToolLaws(t) && NoRotations(disk) && HarmlessCalls(t, disk, ops) && Unrepeated(Run(t, disk, ops).names)
    ensures var d := Run(t, disk, ops); |d.log| == |d.names| && Unspoiled(t.crypto, d)
  {
    if ops != [] {
      hide OnDisk, Apply, ToolLaws, NoRotations, HarmlessCall, Unrepeated, Unspoiled;
      var before, op := ops[..|ops| - 1], ops[|ops| - 1];
      var d := Run(t, disk, before);
      RunKeepsDisk(t, disk, before);
      NamesGrow(t, d, op);
      UnrepeatedPrefix(d.names, Run(t, disk, ops).names);
      HarmlessUnspoiled(t, disk, before);
      HarmlessStep(t, d, op);
    }
  }

  /**
   A run is orderly if every wrap that succeeded was well formed, the counters stayed within their
   width, no two entries went into one directory, and every wrap that failed late into the directory of
   an archive was harmless when it was called.
   */
  lemma HarmlessIsOrderly(t: Tools, disk: map<Bytes, Folder>, ops: seq<Op>)
    requires ToolLaws(t) && NoRotations(disk) && CallsOk(t, disk, ops) && HarmlessCalls(t, disk, ops)
    requires var d := Run(t, disk, ops); WithinWidth(d.log) && Unrepeated(d.names)
    ensures Orderly(t, disk, ops)
  {
    hide Run, CallsOk, HarmlessCalls, ToolLaws, NoRotations, Unrepeated, Unspoiled, WithinWidth;
    HarmlessUnspoiled(t, disk, ops);
  }
}
