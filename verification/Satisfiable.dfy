/**
 The laws assumed of serialization have a model: nothing proved under them is vacuous.
 */
module Satisfiable {
  import opened Text
  import opened Json
  import opened Primitives
  import opened Records
  import opened Archive
  import opened Format
  import E = Envelope
  import R = RecordStream

  // ── Decoding by inversion ──────────────────────────────────────────────────

  ghost predicate Injective<T(!new)>(encode: T -> Bytes) {
    forall x, y :: encode(x) == encode(y) ==> x == y
  }

  /** The value that encodes to `b`, if there is one. */
  ghost function Inverse<T(!new)>(encode: T -> Bytes, b: Bytes): Option<T> {
    if exists x :: encode(x) == b then var x :| encode(x) == b; Some(x) else None
  }

  lemma InverseUndoes<T(!new)>(encode: T -> Bytes)
    requires Injective(encode)
    ensures forall x :: Inverse(encode, encode(x)) == Some(x)
  {
    forall x ensures Inverse(encode, encode(x)) == Some(x) {
      var y := Inverse(encode, encode(x)).value;
      assert encode(y) == encode(x);
    }
  }

  function List(a: Json, b: Json, c: Json): Json { JArr(Item(a, Item(b, Item(c, NoItems)))) }

  function OptStr(s: Option<Bytes>): Json { if s.Some? then JStr(s.value) else JNum("0") }

  function OptNum(n: Option<nat>): Json { if n.Some? then JNum(Dec(n.value)) else JStr("") }

  lemma OptNumInjective(a: Option<nat>, b: Option<nat>)
    requires OptNum(a) == OptNum(b)
    ensures a == b
  {
    if a.Some? && b.Some? { DecInjective(a.value, b.value); }
  }

  // ── Manifests and rotations ────────────────────────────────────────────────

  function NoEpoch(m: Manifest): Manifest { m.(device := m.device.(keyEpoch := None)) }

  function ManifestText(m: Manifest): Bytes {
    Render(List(ManifestTree(NoEpoch(m)), OptStr(m.signature), OptNum(m.device.keyEpoch)))
  }

  lemma ManifestTextInjective(m: Manifest, n: Manifest)
    requires ManifestText(m) == ManifestText(n)
    ensures m == n
  {
    hide ManifestTree, Render, Dec;
    RenderInjective(List(ManifestTree(NoEpoch(m)), OptStr(m.signature), OptNum(m.device.keyEpoch)),
                    List(ManifestTree(NoEpoch(n)), OptStr(n.signature), OptNum(n.device.keyEpoch)));
    assert ManifestBytes(NoEpoch(m)) == ManifestBytes(NoEpoch(n));
    ManifestBytesInjective(NoEpoch(m), NoEpoch(n));
    OptNumInjective(m.device.keyEpoch, n.device.keyEpoch);
    assert NoEpoch(m).(signature := None).device == NoEpoch(n).(signature := None).device;
  }

  lemma {:induction false} ItemsLength(ss: seq<Segment>)
    ensures |RenderItems(SegmentItems(ss))| >= |ss|
  {
    if ss != [] {
      ItemsLength(ss[1..]);
      RenderStart(SegmentTree(ss[0]));
    }
  }

  lemma MemberLength(k: Bytes, v: Json, rest: Members)
    ensures |RenderMembers(Member(k, v, rest))| >= |Render(v)|
    ensures |RenderMembers(Member(k, v, rest))| >= |RenderMembers(rest)|
  {
  }

  lemma TreeLength(m: Manifest)
    ensures |Render(ManifestTree(m))| >= |m.segments|
  {
    hide Quote, DeviceTree, MetadataTree, SegmentItems, StringItems, ChronicleMembers, Dec;
    var m7 := Member("claims", JArr(StringItems(m.claims)), ChronicleMembers(m));
    var segments := JArr(SegmentItems(m.segments));
    var m6 := Member("segments", segments, m7);
    var chunk := JObj(Member("size_bytes", JNum(Dec(m.chunkSize)), Member("duration_seconds", JNum(m.chunkDuration), NoMembers)));
    var m5 := Member("chunk", chunk, m6);
    var m4 := Member("metadata", MetadataTree(m.metadata), m5);
    var m3 := Member("device", DeviceTree(m.device), m4);
    var m2 := Member("profile", JStr(m.profile), m3);
    assert ManifestTree(m) == JObj(Member("trst_version", JStr(m.version), m2));
    ItemsLength(m.segments);
    assert |Render(segments)| >= |RenderItems(SegmentItems(m.segments))|;
    hide Render, RenderMembers;
    MemberLength("segments", segments, m7);
    MemberLength("chunk", chunk, m6);
    MemberLength("metadata", MetadataTree(m.metadata), m5);
    MemberLength("device", DeviceTree(m.device), m4);
    MemberLength("profile", JStr(m.profile), m3);
    MemberLength("trst_version", JStr(m.version), m2);
    ObjectLength(Member("trst_version", JStr(m.version), m2));
  }

  lemma ObjectLength(m: Members)
    ensures |Render(JObj(m))| >= |RenderMembers(m)|
  {
  }

  lemma ListLength(a: Json, b: Json, c: Json)
    ensures |Render(List(a, b, c))| >= |Render(a)|
  {
    assert Render(List(a, b, c)) == "[" + RenderItems(Item(a, Item(b, Item(c, NoItems)))) + "]";
  }

  lemma ManifestTextLength(m: Manifest)
    ensures |ManifestText(m)| >= |m.segments|
  {
    hide ManifestTree, Render;
    TreeLength(NoEpoch(m));
    ListLength(ManifestTree(NoEpoch(m)), OptStr(m.signature), OptNum(m.device.keyEpoch));
  }

  function RotationText(r: RotationRecord): Bytes { Render(List(RotationTree(r), JStr(r.sigOld), JStr(r.sigNew))) }

  lemma RotationTextInjective(r: RotationRecord, s: RotationRecord)
    requires RotationText(r) == RotationText(s)
    ensures r == s
  {
    hide RotationTree, Render;
    RenderInjective(List(RotationTree(r), JStr(r.sigOld), JStr(r.sigNew)), List(RotationTree(s), JStr(s.sigOld), JStr(s.sigNew)));
    assert RotationBytes(r) == RotationBytes(s);
    RotationBytesInjective(r, s);
    assert r == r.(sigOld := "", sigNew := "").(sigOld := r.sigOld, sigNew := r.sigNew);
    assert s == s.(sigOld := "", sigNew := "").(sigOld := s.sigOld, sigNew := s.sigNew);
  }

  /** Numbers read back as printed, unless JSON has no form for them. */
  function ReadFinite(n: NumText): Option<NumText> { if NotFinite(n) then None else Some(n) }

  function Marks(n: nat): Bytes { seq(n, i => '#') }

  function Position(short: seq<Manifest>, m: Manifest): (i: nat)
    requires m in short
    ensures i < |short| && short[i] == m
  {
    if short[0] == m then 0 else 1 + Position(short[1..], m)
  }

  /** The manifests in `short` have short codes of their own, so that a given few can be kept below any size limit. */
  function ShortText(short: seq<Manifest>, m: Manifest): Bytes {
    if m in short then Marks(Position(short, m) + 1) else ManifestText(m)
  }

  predicate FewSegments(short: seq<Manifest>) { forall m :: m in short ==> |m.segments| <= 1 }

  lemma ManifestTextStart(m: Manifest)
    ensures ManifestText(m) != "" && ManifestText(m)[0] == '['
  {
    hide ManifestTree;
  }

  lemma ShortTextInjective(short: seq<Manifest>, m: Manifest, n: Manifest)
    requires ShortText(short, m) == ShortText(short, n)
    ensures m == n
  {
    hide ManifestText;
    ManifestTextStart(m);
    ManifestTextStart(n);
    if m in short && n in short {
      assert |Marks(Position(short, m) + 1)| == |Marks(Position(short, n) + 1)|;
    } else if m !in short && n !in short {
      ManifestTextInjective(m, n);
    }
  }

  ghost function Encoder(short: seq<Manifest>): Manifest -> Bytes { (m: Manifest) => ShortText(short, m) }

  /** Everything but the manifest decoder. */
  ghost function Encoders(short: seq<Manifest>): Tools {
    Tools(Trivial(),
          Encoder(short), (b: Bytes) => None,
          (n: NumText) => ReadFinite(n), (d: Metadata) => Some(d),
          (r: RotationRecord) => RotationText(r), (b: Bytes) => Inverse((r: RotationRecord) => RotationText(r), b),
          (profile: Bytes, d: Metadata) => true,
          (pub: Bytes) => Some(pub))
  }

  ghost function DecodeManifest(short: seq<Manifest>, b: Bytes): Option<Manifest> {
    match Inverse(Encoder(short), b)
    case None => None
    case Some(m) => ReadBack(Encoders(short), m)
  }

  ghost function SomeTools(short: seq<Manifest>): Tools {
    Encoders(short).(decode := (b: Bytes) => DecodeManifest(short, b))
  }

  /** What reads back depends on how numbers and metadata read, and on nothing else. */
  lemma ReadBackAlike(t: Tools, u: Tools, m: Manifest)
    requires t.readNumber == u.readNumber && t.readMetadata == u.readMetadata
    ensures ReadBack(t, m) == ReadBack(u, m)
  {
    assert ReadSegments(t, m.segments) == ReadSegments(u, m.segments);
  }

  lemma ManifestsInvert(short: seq<Manifest>)
    ensures forall m: Manifest :: Inverse(Encoder(short), Encoder(short)(m)) == Some(m)
  {
    hide ShortText;
    var f := Encoder(short);
    forall m, n | f(m) == f(n) ensures m == n { ShortTextInjective(short, m, n); }
    InverseUndoes(f);
  }

  /** Some tools meet every law assumed of them, whichever few manifests are to have short codes. */
  lemma ToolLawsAreSatisfiable(short: seq<Manifest>)
    requires FewSegments(short)
    ensures ToolLaws(SomeTools(short))
    ensures forall m :: m in short ==> |SomeTools(short).encode(m)| <= |short|
  {
    hide Lawful, ReadBack, ManifestText, RotationText;
    var t := SomeTools(short);
    LawsAreSatisfiable();
    ManifestsInvert(short);
    RotationsInvert();
    forall m: Manifest ensures t.decode(t.encode(m)) == ReadBack(t, m) { ReadBackAlike(Encoders(short), t, m); }
    forall m: Manifest ensures |t.encode(m)| >= |m.segments| { ManifestTextLength(m); }
  }

  lemma RotationsInvert()
    ensures forall r: RotationRecord :: Inverse((x: RotationRecord) => RotationText(x), RotationText(r)) == Some(r)
  {
    hide RotationText;
    var f := (x: RotationRecord) => RotationText(x);
    forall m, n | f(m) == f(n) ensures m == n { RotationTextInjective(m, n); }
    InverseUndoes(f);
    forall r: RotationRecord ensures Inverse((x: RotationRecord) => RotationText(x), RotationText(r)) == Some(r) {
      assert Inverse(f, f(r)) == Some(r);
    }
  }

  // ── The codecs of the chunked containers ───────────────────────────────────

  function ChunkTree(m: E.ChunkManifest): Json {
    List(List(JNum(Dec(m.sequence)), JNum(Dec(m.chunkSize)), JNum(Dec(m.timestamp))),
         JStr(m.formatHint), List(JStr(m.keyDerivationSalt), JNum(Dec(m.pbkdf2Iterations)), JStr("")))
  }

  lemma ChunkTreeInjective(m: E.ChunkManifest, n: E.ChunkManifest)
    requires Render(ChunkTree(m)) == Render(ChunkTree(n))
    ensures m == n
  {
    hide Render, Dec;
    RenderInjective(ChunkTree(m), ChunkTree(n));
    DecInjective(m.sequence, n.sequence);
    DecInjective(m.chunkSize, n.chunkSize);
    DecInjective(m.timestamp, n.timestamp);
    DecInjective(m.pbkdf2Iterations, n.pbkdf2Iterations);
  }

  function SignedTree(s: SignedManifest): Json { List(JStr(s.manifest), JStr(s.sig), JStr(s.pubkey)) }

  ghost function SomeEnvelopeCodec(): E.Codec {
    E.Codec((m: E.ChunkManifest) => Render(ChunkTree(m)), (b: Bytes) => Inverse((m: E.ChunkManifest) => Render(ChunkTree(m)), b),
            (s: SignedManifest) => Render(SignedTree(s)), (b: Bytes) => Inverse((s: SignedManifest) => Render(SignedTree(s)), b))
  }

  lemma EnvelopeCodecIsSatisfiable()
    ensures E.CodecLaws(SomeEnvelopeCodec())
  {
    hide Render, ChunkTree;
    var f := (m: E.ChunkManifest) => Render(ChunkTree(m));
    forall m, n | f(m) == f(n) ensures m == n { ChunkTreeInjective(m, n); }
    InverseUndoes(f);
    forall m: E.ChunkManifest ensures Inverse((x: E.ChunkManifest) => Render(ChunkTree(x)), Render(ChunkTree(m))) == Some(m) {
      assert Inverse(f, f(m)) == Some(m);
    }
    var g := (s: SignedManifest) => Render(SignedTree(s));
    forall m, n | g(m) == g(n) ensures m == n { RenderInjective(SignedTree(m), SignedTree(n)); }
    InverseUndoes(g);
    forall s: SignedManifest ensures Inverse((x: SignedManifest) => Render(SignedTree(x)), Render(SignedTree(s))) == Some(s) {
      assert Inverse(g, g(s)) == Some(s);
    }
  }

  function RecordTree(m: R.Manifest): Json {
    List(List(JNum(Dec(m.v)), JNum(Dec(m.tsMs)), JNum(Dec(m.seqNo))),
         List(JStr(m.headerHash), JStr(m.ptHash), JStr(m.keyId)),
         List(if m.aiUsed then JStr("") else JNum("0"), JArr(StringItems(m.modelIds)),
              List(JStr(m.dataType), JNum(Dec(m.chunkLen)), JStr(""))))
  }

  lemma RecordTreeInjective(m: R.Manifest, n: R.Manifest)
    requires Render(RecordTree(m)) == Render(RecordTree(n))
    ensures m == n
  {
    hide Render, Dec, StringItems;
    RenderInjective(RecordTree(m), RecordTree(n));
    DecInjective(m.v, n.v);
    DecInjective(m.tsMs, n.tsMs);
    DecInjective(m.seqNo, n.seqNo);
    DecInjective(m.chunkLen, n.chunkLen);
    StringItemsInjective(m.modelIds, n.modelIds);
  }

  ghost function SomeRecordCodec(): R.Codec {
    R.Codec((m: R.Manifest) => Render(RecordTree(m)), (b: Bytes) => Inverse((m: R.Manifest) => Render(RecordTree(m)), b))
  }

  lemma RecordCodecIsSatisfiable()
    ensures R.CodecLaws(SomeRecordCodec())
  {
    hide Render, RecordTree;
    var f := (m: R.Manifest) => Render(RecordTree(m));
    forall m, n | f(m) == f(n) ensures m == n { RecordTreeInjective(m, n); }
    InverseUndoes(f);
    forall m: R.Manifest ensures Inverse((x: R.Manifest) => Render(RecordTree(x)), Render(RecordTree(m))) == Some(m) {
      assert Inverse(f, f(m)) == Some(m);
    }
  }
}
