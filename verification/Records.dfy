/**
 The signed records of a device chronicle and the exact bytes their signatures and digests cover:
 archive manifests, rotation records and witness requests.
 */
module Records {
  import opened Text
  import opened Json
  import opened Primitives

  // ── Rotation records ───────────────────────────────────────────────────────

  datatype RotationRecord = RotationRecord(
    version: Bytes, kind: Bytes, sequence: nat, prev: Bytes,
    oldKey: Bytes, oldEpoch: nat,
    newKey: Bytes, newAgreement: Bytes, newEpoch: nat,
    rotatedAt: Bytes, sigOld: Bytes, sigNew: Bytes)

  const ROTATION_KIND: Bytes := "rotation"
  const FORMAT_VERSION: Bytes := "0.2.0"

  function RotationTree(r: RotationRecord): Json {
    JObj(Member("trst_version", JStr(r.version),
         Member("kind", JStr(r.kind),
         Member("sequence", JNum(Dec(r.sequence)),
         Member("prev_archive_hash", JStr(r.prev),
         Member("old", JObj(Member("public_key", JStr(r.oldKey),
                            Member("key_epoch", JNum(Dec(r.oldEpoch)), NoMembers))),
         Member("new", JObj(Member("public_key", JStr(r.newKey),
                            Member("key_agreement_public", JStr(r.newAgreement),
                            Member("key_epoch", JNum(Dec(r.newEpoch)), NoMembers)))),
         Member("rotated_at", JStr(r.rotatedAt), NoMembers))))))))
  }

  /** `RotationRecord::signing_bytes`: both signatures excluded. */
  function RotationBytes(r: RotationRecord): Bytes { Render(RotationTree(r)) }

  function RotationOf(v: Json): Option<RotationRecord> {
    match v
    case JObj(Member(_, JStr(version),
              Member(_, JStr(kind),
              Member(_, JNum(sequence),
              Member(_, JStr(prev),
              Member(_, JObj(Member(_, JStr(oldKey), Member(_, JNum(oldEpoch), _))),
              Member(_, JObj(Member(_, JStr(newKey), Member(_, JStr(newAgreement), Member(_, JNum(newEpoch), _)))),
              Member(_, JStr(rotatedAt), _)))))))) =>
      (match (ParseDec(sequence), ParseDec(oldEpoch), ParseDec(newEpoch))
       case (Some(s), Some(o), Some(n)) =>
         var r := RotationRecord(version, kind, s, prev, oldKey, o, newKey, newAgreement, n, rotatedAt, "", "");
         if RotationTree(r) == v then Some(r) else None
       case _ => None)
    case _ => None
  }

  /** Recovers a rotation record, its signatures blank, from its signing bytes. */
  function DecodeRotation(t: Bytes): Option<RotationRecord> {
    match Parse(t)
    case Some(v) => RotationOf(v)
    case None => None
  }

  lemma RotationOfTree(r: RotationRecord)
    ensures RotationOf(RotationTree(r)) == Some(r.(sigOld := "", sigNew := ""))
  {
    DecRoundTrip(r.sequence);
    DecRoundTrip(r.oldEpoch);
    DecRoundTrip(r.newEpoch);
  }

  /** Every signed field of a rotation is recovered, whatever bytes its strings hold. */
  lemma DecodeRotationBytes(r: RotationRecord)
    ensures DecodeRotation(RotationBytes(r)) == Some(r.(sigOld := "", sigNew := ""))
  {
    ParseRender(RotationTree(r));
    RotationOfTree(r);
  }

  /** `RotationRecord::verify`. */
  predicate RotationVerifies(c: Crypto, r: RotationRecord) {
    && r.kind == ROTATION_KIND
    && r.oldEpoch + 1 < U32_LIMIT
    && r.newEpoch == r.oldEpoch + 1
    && c.verifies(r.oldKey, RotationBytes(r), r.sigOld)
    && c.verifies(r.newKey, RotationBytes(r), r.sigNew)
  }

  /**
   `RotationRecord::create_signed`. The epoch is a `u32`; its increment wraps at the type's bound
   in the release profile.
   */
  function CreateRotation(c: Crypto, oldSecret: Bytes, oldEpoch: nat, newSecret: Bytes, newAgreement: Bytes,
                          sequence: nat, prev: Bytes, rotatedAt: Bytes): RotationRecord
  {
    var unsigned := RotationRecord(FORMAT_VERSION, ROTATION_KIND, sequence, prev,
      c.publicOf(oldSecret), oldEpoch, c.publicOf(newSecret), newAgreement, (oldEpoch + 1) % U32_LIMIT,
      rotatedAt, "", "");
    var text := RotationBytes(unsigned);
    unsigned.(sigOld := c.sign(oldSecret, text), sigNew := c.sign(newSecret, text))
  }

  /** A freshly created rotation verifies exactly when its epoch can still be incremented. */
  lemma CreatedRotationVerifies(c: Crypto, oldSecret: Bytes, oldEpoch: nat, newSecret: Bytes, newAgreement: Bytes,
                                sequence: nat, prev: Bytes, rotatedAt: Bytes)
    requires SignatureLaws(c) && oldEpoch < U32_LIMIT
    ensures RotationVerifies(c, CreateRotation(c, oldSecret, oldEpoch, newSecret, newAgreement, sequence, prev, rotatedAt))
       <==> oldEpoch + 1 < U32_LIMIT
  {
    var r := CreateRotation(c, oldSecret, oldEpoch, newSecret, newAgreement, sequence, prev, rotatedAt);
    assert RotationTree(r) == RotationTree(r.(sigOld := "", sigNew := ""));
    assert c.verifies(c.publicOf(oldSecret), RotationBytes(r), c.sign(oldSecret, RotationBytes(r)));
    assert c.verifies(c.publicOf(newSecret), RotationBytes(r), c.sign(newSecret, RotationBytes(r)));
  }

  // ── Witness requests ───────────────────────────────────────────────────────

  datatype WitnessRequest = WitnessRequest(
    devicePub: Bytes, sequence: nat, tip: Bytes, signedAt: Bytes, signature: Bytes,
    rotation: Option<RotationRecord>)

  function WitnessTree(q: WitnessRequest): Json {
    JObj(Member("device_pub", JStr(q.devicePub),
         Member("sequence", JNum(Dec(q.sequence)),
         Member("tip", JStr(q.tip),
         Member("signed_at", JStr(q.signedAt), NoMembers)))))
  }

  /** `WitnessRequest::signing_bytes`: neither the signature nor the attached rotation is covered. */
  function WitnessBytes(q: WitnessRequest): Bytes { Render(WitnessTree(q)) }

  /** Recovers a witness request, its signature blank, from its signing bytes. */
  function DecodeWitness(t: Bytes): Option<WitnessRequest> {
    match Parse(t)
    case Some(JObj(Member(_, JStr(devicePub), Member(_, JNum(sequence),
                   Member(_, JStr(tip), Member(_, JStr(signedAt), _)))))) =>
      (match ParseDec(sequence)
       case Some(s) =>
         var q := WitnessRequest(devicePub, s, tip, signedAt, "", None);
         if WitnessTree(q) == Parse(t).value then Some(q) else None
       case None => None)
    case _ => None
  }

  lemma DecodeWitnessBytes(q: WitnessRequest)
    ensures DecodeWitness(WitnessBytes(q)) == Some(q.(signature := "", rotation := None))
  {
    DecRoundTrip(q.sequence);
    ParseRender(WitnessTree(q));
    assert WitnessTree(q) == WitnessTree(q.(signature := "", rotation := None));
  }

  function CreateWitness(c: Crypto, secret: Bytes, sequence: nat, tip: Bytes, signedAt: Bytes): WitnessRequest {
    var unsigned := WitnessRequest(c.publicOf(secret), sequence, tip, signedAt, "", None);
    unsigned.(signature := c.sign(secret, WitnessBytes(unsigned)))
  }

  /** `WitnessRequest::verify`. */
  predicate WitnessVerifies(c: Crypto, q: WitnessRequest) {
    c.verifies(q.devicePub, WitnessBytes(q), q.signature)
  }

  /** A created request verifies, with or without a rotation attached afterwards. */
  lemma CreatedWitnessVerifies(c: Crypto, secret: Bytes, sequence: nat, tip: Bytes, signedAt: Bytes,
                               rotation: Option<RotationRecord>)
    requires SignatureLaws(c)
    ensures WitnessVerifies(c, CreateWitness(c, secret, sequence, tip, signedAt).(rotation := rotation))
  {
    var q := CreateWitness(c, secret, sequence, tip, signedAt);
    assert WitnessTree(q.(rotation := rotation)) == WitnessTree(q.(signature := ""));
    assert c.verifies(c.publicOf(secret), WitnessBytes(q), c.sign(secret, WitnessBytes(q)));
  }

  // ── Archive manifests ──────────────────────────────────────────────────────

  /** Floating-point fields are held as the text the canonical form prints for them. */
  datatype Segment = Segment(chunkFile: Bytes, blake3Hash: Bytes, startTime: Bytes, duration: NumText, continuityHash: Bytes)

  datatype Recipient = Recipient(id: Bytes, pub: Bytes, enc: Bytes, wrappedCek: Bytes)

  datatype Encryption = Encryption(contentAead: Bytes, kem: Bytes, kdf: Bytes, aead: Bytes, recipients: seq<Recipient>)

  datatype DeviceInfo = DeviceInfo(
    id: Bytes, model: Bytes, firmware: Bytes, publicKey: Bytes, keyAgreement: Option<Bytes>, keyEpoch: Option<nat>)

  /** Profile metadata: the two timestamps every profile has, then the profile's own members in order. */
  datatype Metadata = Metadata(startedAt: Bytes, endedAt: Bytes, fields: Members)

  datatype Manifest = Manifest(
    version: Bytes, profile: Bytes, device: DeviceInfo, metadata: Metadata,
    chunkSize: nat, chunkDuration: NumText, segments: seq<Segment>, claims: seq<Bytes>,
    encryption: Option<Encryption>, sequence: Option<nat>, prev: Option<Bytes>, signature: Option<Bytes>)

  function DeviceTree(d: DeviceInfo): Json {
    var epoch := if d.keyEpoch.Some? && d.keyEpoch.value > 0
                 then Member("key_epoch", JNum(Dec(d.keyEpoch.value)), NoMembers) else NoMembers;
    var agreement := if d.keyAgreement.Some? then Member("key_agreement_public", JStr(d.keyAgreement.value), epoch) else epoch;
    JObj(Member("id", JStr(d.id), Member("model", JStr(d.model),
         Member("firmware_version", JStr(d.firmware), Member("public_key", JStr(d.publicKey), agreement)))))
  }

  function SegmentTree(s: Segment): Json {
    JObj(Member("chunk_file", JStr(s.chunkFile), Member("blake3_hash", JStr(s.blake3Hash),
         Member("start_time", JStr(s.startTime), Member("duration_seconds", JNum(s.duration),
         Member("continuity_hash", JStr(s.continuityHash), NoMembers))))))
  }

  function SegmentItems(ss: seq<Segment>): Items {
    if ss == [] then NoItems else Item(SegmentTree(ss[0]), SegmentItems(ss[1..]))
  }

  function StringItems(ss: seq<Bytes>): Items {
    if ss == [] then NoItems else Item(JStr(ss[0]), StringItems(ss[1..]))
  }

  function RecipientTree(r: Recipient): Json {
    JObj(Member("recipient_id", JStr(r.id), Member("recipient_pub", JStr(r.pub),
         Member("enc", JStr(r.enc), Member("wrapped_cek", JStr(r.wrappedCek), NoMembers)))))
  }

  function RecipientItems(rs: seq<Recipient>): Items {
    if rs == [] then NoItems else Item(RecipientTree(rs[0]), RecipientItems(rs[1..]))
  }

  function EncryptionTree(e: Encryption): Json {
    JObj(Member("content_aead", JStr(e.contentAead),
         Member("hpke", JObj(Member("kem", JStr(e.kem), Member("kdf", JStr(e.kdf), Member("aead", JStr(e.aead), NoMembers)))),
         Member("recipients", JArr(RecipientItems(e.recipients)), NoMembers))))
  }

  /** The optional members at the end: encryption block, sequence, predecessor. */
  function ChronicleMembers(m: Manifest): Members {
    var prev := if m.prev.Some? then Member("prev_archive_hash", JStr(m.prev.value), NoMembers) else NoMembers;
    var sequence := if m.sequence.Some? then Member("sequence", JNum(Dec(m.sequence.value)), prev) else prev;
    if m.encryption.Some? then Member("encryption", EncryptionTree(m.encryption.value), sequence) else sequence
  }

  function MetadataTree(d: Metadata): Json {
    JObj(Member("started_at", JStr(d.startedAt), Member("ended_at", JStr(d.endedAt), d.fields)))
  }

  function ManifestTree(m: Manifest): Json {
    JObj(Member("trst_version", JStr(m.version),
         Member("profile", JStr(m.profile),
         Member("device", DeviceTree(m.device),
         Member("metadata", MetadataTree(m.metadata),
         Member("chunk", JObj(Member("size_bytes", JNum(Dec(m.chunkSize)),
                              Member("duration_seconds", JNum(m.chunkDuration), NoMembers))),
         Member("segments", JArr(SegmentItems(m.segments)),
         Member("claims", JArr(StringItems(m.claims)), ChronicleMembers(m)))))))))
  }

  /** `TrstManifest::to_canonical_bytes`: the signature is excluded. */
  function ManifestBytes(m: Manifest): Bytes { Render(ManifestTree(m)) }

  lemma {:induction false} SegmentItemsInjective(ss: seq<Segment>, tt: seq<Segment>)
    requires SegmentItems(ss) == SegmentItems(tt)
    ensures ss == tt
  {
    if ss != [] {
      SegmentItemsInjective(ss[1..], tt[1..]);
      assert ss == [ss[0]] + ss[1..] && tt == [tt[0]] + tt[1..];
    }
  }

  lemma {:induction false} StringItemsInjective(ss: seq<Bytes>, tt: seq<Bytes>)
    requires StringItems(ss) == StringItems(tt)
    ensures ss == tt
  {
    if ss != [] {
      StringItemsInjective(ss[1..], tt[1..]);
      assert ss == [ss[0]] + ss[1..] && tt == [tt[0]] + tt[1..];
    }
  }

  lemma {:induction false} RecipientItemsInjective(ss: seq<Recipient>, tt: seq<Recipient>)
    requires RecipientItems(ss) == RecipientItems(tt)
    ensures ss == tt
  {
    if ss != [] {
      RecipientItemsInjective(ss[1..], tt[1..]);
      assert ss == [ss[0]] + ss[1..] && tt == [tt[0]] + tt[1..];
    }
  }

  lemma DecInjective(a: nat, b: nat)
    requires Dec(a) == Dec(b)
    ensures a == b
  {
    DecRoundTrip(a);
    DecRoundTrip(b);
  }

  lemma DeviceTreeInjective(d: DeviceInfo, e: DeviceInfo)
    requires DeviceTree(d) == DeviceTree(e)
    requires d.keyEpoch != Some(0) && e.keyEpoch != Some(0)
    ensures d == e
  {
    if d.keyEpoch.Some? && e.keyEpoch.Some? && Dec(d.keyEpoch.value) == Dec(e.keyEpoch.value) {
      DecInjective(d.keyEpoch.value, e.keyEpoch.value);
    }
  }

  lemma ChronicleMembersInjective(m: Manifest, n: Manifest)
    requires ChronicleMembers(m) == ChronicleMembers(n)
    ensures m.encryption == n.encryption && m.sequence == n.sequence && m.prev == n.prev
  {
    if m.encryption.Some? && n.encryption.Some? {
      RecipientItemsInjective(m.encryption.value.recipients, n.encryption.value.recipients);
    }
    if m.sequence.Some? && n.sequence.Some? && Dec(m.sequence.value) == Dec(n.sequence.value) {
      DecInjective(m.sequence.value, n.sequence.value);
    }
  }

  /**
   The canonical bytes determine the whole manifest up to its signature. Epoch 0 must be written
   as absence, which is what manifest validation demands: an explicit 0 prints like none.
   */
  lemma ManifestBytesInjective(m: Manifest, n: Manifest)
    requires m.device.keyEpoch != Some(0) && n.device.keyEpoch != Some(0)
    requires ManifestBytes(m) == ManifestBytes(n)
    ensures m.(signature := None) == n.(signature := None)
  {
    RenderInjective(ManifestTree(m), ManifestTree(n));
    DeviceTreeInjective(m.device, n.device);
    DecInjective(m.chunkSize, n.chunkSize);
    SegmentItemsInjective(m.segments, n.segments);
    StringItemsInjective(m.claims, n.claims);
    ChronicleMembersInjective(m, n);
  }

  lemma RotationBytesInjective(r: RotationRecord, s: RotationRecord)
    requires RotationBytes(r) == RotationBytes(s)
    ensures r.(sigOld := "", sigNew := "") == s.(sigOld := "", sigNew := "")
  {
    DecodeRotationBytes(r);
    DecodeRotationBytes(s);
  }

  /** No byte string is signed in two roles. */
  lemma SigningBytesDisjoint(m: Manifest, r: RotationRecord, q: WitnessRequest)
    ensures ManifestBytes(m) != RotationBytes(r)
    ensures ManifestBytes(m) != WitnessBytes(q)
    ensures RotationBytes(r) != WitnessBytes(q)
  {
    assert "profile"[0] != "kind"[0] && "trst_version"[0] != "device_pub"[0];
    if ManifestBytes(m) == RotationBytes(r) {
      RenderInjective(ManifestTree(m), RotationTree(r));
    }
    if ManifestBytes(m) == WitnessBytes(q) {
      RenderInjective(ManifestTree(m), WitnessTree(q));
    }
    if RotationBytes(r) == WitnessBytes(q) {
      RenderInjective(RotationTree(r), WitnessTree(q));
    }
  }
}
