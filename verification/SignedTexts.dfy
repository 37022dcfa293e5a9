/**
 The texts under the signatures, written out: member names, their order and what is left out when
 absent. This is what another implementation has to reproduce byte for byte.
 */
module SignedTexts {
  import opened Text
  import opened Json
  import opened Primitives
  import opened Records

  // No member name needs escaping.

  lemma NamesPlain0()
    ensures IsPlain("aead")
    ensures IsPlain("blake3_hash")
    ensures IsPlain("chunk")
    ensures IsPlain("chunk_file")
  {
  }

  lemma NamesPlain1()
    ensures IsPlain("claims")
    ensures IsPlain("content_aead")
    ensures IsPlain("continuity_hash")
    ensures IsPlain("device")
  {
  }

  lemma NamesPlain2()
    ensures IsPlain("device_pub")
    ensures IsPlain("duration_seconds")
    ensures IsPlain("enc")
    ensures IsPlain("encryption")
  {
  }

  lemma NamesPlain3()
    ensures IsPlain("ended_at")
    ensures IsPlain("firmware_version")
    ensures IsPlain("hpke")
    ensures IsPlain("id")
  {
  }

  lemma NamesPlain4()
    ensures IsPlain("kdf")
    ensures IsPlain("kem")
    ensures IsPlain("key_agreement_public")
    ensures IsPlain("key_epoch")
  {
  }

  lemma NamesPlain5()
    ensures IsPlain("kind")
    ensures IsPlain("metadata")
    ensures IsPlain("model")
    ensures IsPlain("new")
  {
  }

  lemma NamesPlain6()
    ensures IsPlain("old")
    ensures IsPlain("prev_archive_hash")
    ensures IsPlain("profile")
    ensures IsPlain("public_key")
  {
  }

  lemma NamesPlain7()
    ensures IsPlain("recipient_id")
    ensures IsPlain("recipient_pub")
    ensures IsPlain("recipients")
    ensures IsPlain("rotated_at")
  {
  }

  lemma NamesPlain8()
    ensures IsPlain("segments")
    ensures IsPlain("sequence")
    ensures IsPlain("signed_at")
    ensures IsPlain("size_bytes")
  {
  }

  lemma NamesPlain9()
    ensures IsPlain("start_time")
    ensures IsPlain("started_at")
    ensures IsPlain("tip")
    ensures IsPlain("trst_version")
  {
  }

  lemma NamesPlain10()
    ensures IsPlain("wrapped_cek")
  {
  }

  lemma NamesPlain()
    ensures IsPlain("aead") && IsPlain("blake3_hash") && IsPlain("chunk") && IsPlain("chunk_file")
    ensures IsPlain("claims") && IsPlain("content_aead") && IsPlain("continuity_hash") && IsPlain("device")
    ensures IsPlain("device_pub") && IsPlain("duration_seconds") && IsPlain("enc") && IsPlain("encryption")
    ensures IsPlain("ended_at") && IsPlain("firmware_version") && IsPlain("hpke") && IsPlain("id")
    ensures IsPlain("kdf") && IsPlain("kem") && IsPlain("key_agreement_public") && IsPlain("key_epoch")
    ensures IsPlain("kind") && IsPlain("metadata") && IsPlain("model") && IsPlain("new")
    ensures IsPlain("old") && IsPlain("prev_archive_hash") && IsPlain("profile") && IsPlain("public_key")
    ensures IsPlain("recipient_id") && IsPlain("recipient_pub") && IsPlain("recipients") && IsPlain("rotated_at")
    ensures IsPlain("segments") && IsPlain("sequence") && IsPlain("signed_at") && IsPlain("size_bytes")
    ensures IsPlain("start_time") && IsPlain("started_at") && IsPlain("tip") && IsPlain("trst_version")
    ensures IsPlain("wrapped_cek")
  {
    hide IsPlain;
    NamesPlain0();
    NamesPlain1();
    NamesPlain2();
    NamesPlain3();
    NamesPlain4();
    NamesPlain5();
    NamesPlain6();
    NamesPlain7();
    NamesPlain8();
    NamesPlain9();
    NamesPlain10();
  }

  lemma OldIdentityText(key: Bytes, epoch: nat)
    ensures Render(JObj(Member("public_key", JStr(key), Member("key_epoch", JNum(Dec(epoch)), NoMembers))))
         == Braces([Pair("public_key", Quote(key)), Pair("key_epoch", Dec(epoch))])
  {
    hide IsPlain, RenderMembers, Quote, Dec, Pair, Join;
    NamesPlain();
    var m2 := Member("key_epoch", JNum(Dec(epoch)), NoMembers);
    PartsOf("key_epoch", JNum(Dec(epoch)), NoMembers);
    PartsOf("public_key", JStr(key), m2);
    ObjectText(Member("public_key", JStr(key), m2));
    assert Parts(Member("public_key", JStr(key), m2)) == [Pair("public_key", Quote(key)), Pair("key_epoch", Dec(epoch))];
  }

  lemma NewIdentityText(key: Bytes, agreement: Bytes, epoch: nat)
    ensures Render(JObj(Member("public_key", JStr(key), Member("key_agreement_public", JStr(agreement),
                        Member("key_epoch", JNum(Dec(epoch)), NoMembers)))))
         == Braces([Pair("public_key", Quote(key)), Pair("key_agreement_public", Quote(agreement)), Pair("key_epoch", Dec(epoch))])
  {
    hide IsPlain, RenderMembers, Quote, Dec, Pair, Join;
    NamesPlain();
    var m3 := Member("key_epoch", JNum(Dec(epoch)), NoMembers);
    var m2 := Member("key_agreement_public", JStr(agreement), m3);
    PartsOf("key_epoch", JNum(Dec(epoch)), NoMembers);
    PartsOf("key_agreement_public", JStr(agreement), m3);
    PartsOf("public_key", JStr(key), m2);
    ObjectText(Member("public_key", JStr(key), m2));
    assert Parts(Member("public_key", JStr(key), m2))
        == [Pair("public_key", Quote(key)), Pair("key_agreement_public", Quote(agreement)), Pair("key_epoch", Dec(epoch))];
  }

  /** The exact text of a rotation: what a verifier elsewhere has to rebuild. */
  lemma RotationText(r: RotationRecord)
    ensures RotationBytes(r) == Braces([
              Pair("trst_version", Quote(r.version)), Pair("kind", Quote(r.kind)), Pair("sequence", Dec(r.sequence)),
              Pair("prev_archive_hash", Quote(r.prev)),
              Pair("old", Braces([Pair("public_key", Quote(r.oldKey)), Pair("key_epoch", Dec(r.oldEpoch))])),
              Pair("new", Braces([Pair("public_key", Quote(r.newKey)), Pair("key_agreement_public", Quote(r.newAgreement)),
                                  Pair("key_epoch", Dec(r.newEpoch))])),
              Pair("rotated_at", Quote(r.rotatedAt))])
  {
    var old_ := JObj(Member("public_key", JStr(r.oldKey), Member("key_epoch", JNum(Dec(r.oldEpoch)), NoMembers)));
    var new_ := JObj(Member("public_key", JStr(r.newKey), Member("key_agreement_public", JStr(r.newAgreement),
                     Member("key_epoch", JNum(Dec(r.newEpoch)), NoMembers))));
    OldIdentityText(r.oldKey, r.oldEpoch);
    NewIdentityText(r.newKey, r.newAgreement, r.newEpoch);
    assert RotationTree(r) == JObj(SevenMembers(r, old_, new_));
    SevenText(r, old_, new_);
    assert Render(JStr(r.version)) == Quote(r.version);
  }

  function SevenMembers(r: RotationRecord, old_: Json, new_: Json): Members {
    Member("trst_version", JStr(r.version), Member("kind", JStr(r.kind), Member("sequence", JNum(Dec(r.sequence)),
    Member("prev_archive_hash", JStr(r.prev), Member("old", old_, Member("new", new_,
    Member("rotated_at", JStr(r.rotatedAt), NoMembers)))))))
  }

  lemma SevenText(r: RotationRecord, old_: Json, new_: Json)
    ensures Render(JObj(SevenMembers(r, old_, new_))) == Braces([
              Pair("trst_version", Quote(r.version)), Pair("kind", Quote(r.kind)), Pair("sequence", Dec(r.sequence)),
              Pair("prev_archive_hash", Quote(r.prev)), Pair("old", Render(old_)), Pair("new", Render(new_)),
              Pair("rotated_at", Quote(r.rotatedAt))])
  {
    hide IsPlain, RenderMembers, Quote, Dec, Pair, Join, Parts;
    NamesPlain();
    var m7 := Member("rotated_at", JStr(r.rotatedAt), NoMembers);
    var m6 := Member("new", new_, m7);
    var m5 := Member("old", old_, m6);
    var m4 := Member("prev_archive_hash", JStr(r.prev), m5);
    var m3 := Member("sequence", JNum(Dec(r.sequence)), m4);
    var m2 := Member("kind", JStr(r.kind), m3);
    PartsOf("rotated_at", JStr(r.rotatedAt), NoMembers);
    PartsOf("new", new_, m7);
    PartsOf("old", old_, m6);
    PartsOf("prev_archive_hash", JStr(r.prev), m5);
    PartsOf("sequence", JNum(Dec(r.sequence)), m4);
    PartsOf("kind", JStr(r.kind), m3);
    PartsOf("trst_version", JStr(r.version), m2);
    ObjectText(Member("trst_version", JStr(r.version), m2));
    assert Parts(NoMembers) == [];
    assert Parts(m5) == [Pair("old", Render(old_)), Pair("new", Render(new_)), Pair("rotated_at", Quote(r.rotatedAt))];
    assert Parts(Member("trst_version", JStr(r.version), m2))
        == [Pair("trst_version", Quote(r.version)), Pair("kind", Quote(r.kind)), Pair("sequence", Dec(r.sequence)),
            Pair("prev_archive_hash", Quote(r.prev)), Pair("old", Render(old_)), Pair("new", Render(new_)),
            Pair("rotated_at", Quote(r.rotatedAt))];
  }

  /** The exact text of a witness request. */
  lemma WitnessText(q: WitnessRequest)
    ensures WitnessBytes(q) == Braces([
              Pair("device_pub", Quote(q.devicePub)), Pair("sequence", Dec(q.sequence)),
              Pair("tip", Quote(q.tip)), Pair("signed_at", Quote(q.signedAt))])
  {
    hide IsPlain, RenderMembers, Quote, Dec, Pair, Join, Parts;
    NamesPlain();
    var m4 := Member("signed_at", JStr(q.signedAt), NoMembers);
    var m3 := Member("tip", JStr(q.tip), m4);
    var m2 := Member("sequence", JNum(Dec(q.sequence)), m3);
    PartsOf("signed_at", JStr(q.signedAt), NoMembers);
    PartsOf("tip", JStr(q.tip), m4);
    PartsOf("sequence", JNum(Dec(q.sequence)), m3);
    PartsOf("device_pub", JStr(q.devicePub), m2);
    ObjectText(Member("device_pub", JStr(q.devicePub), m2));
    assert Parts(NoMembers) == [];
    assert Parts(Member("device_pub", JStr(q.devicePub), m2))
        == [Pair("device_pub", Quote(q.devicePub)), Pair("sequence", Dec(q.sequence)), Pair("tip", Quote(q.tip)),
            Pair("signed_at", Quote(q.signedAt))];
  }

  // ── Manifests ──────────────────────────────────────────────────────────────

  function DeviceParts(d: DeviceInfo): seq<Bytes> {
    [Pair("id", Quote(d.id)), Pair("model", Quote(d.model)), Pair("firmware_version", Quote(d.firmware)),
     Pair("public_key", Quote(d.publicKey))]
    + (if d.keyAgreement.Some? then [Pair("key_agreement_public", Quote(d.keyAgreement.value))] else [])
    + (if d.keyEpoch.Some? && d.keyEpoch.value > 0 then [Pair("key_epoch", Dec(d.keyEpoch.value))] else [])
  }

  lemma DeviceText(d: DeviceInfo)
    ensures Render(DeviceTree(d)) == Braces(DeviceParts(d))
  {
    hide IsPlain, RenderMembers, Quote, Dec, Pair, Join, Parts;
    NamesPlain();
    var epoch := if d.keyEpoch.Some? && d.keyEpoch.value > 0
                 then Member("key_epoch", JNum(Dec(d.keyEpoch.value)), NoMembers) else NoMembers;
    var agreement := if d.keyAgreement.Some? then Member("key_agreement_public", JStr(d.keyAgreement.value), epoch) else epoch;
    if d.keyEpoch.Some? { PartsOf("key_epoch", JNum(Dec(d.keyEpoch.value)), NoMembers); }
    if d.keyAgreement.Some? { PartsOf("key_agreement_public", JStr(d.keyAgreement.value), epoch); }
    var m4 := Member("public_key", JStr(d.publicKey), agreement);
    var m3 := Member("firmware_version", JStr(d.firmware), m4);
    var m2 := Member("model", JStr(d.model), m3);
    PartsOf("public_key", JStr(d.publicKey), agreement);
    PartsOf("firmware_version", JStr(d.firmware), m4);
    PartsOf("model", JStr(d.model), m3);
    PartsOf("id", JStr(d.id), m2);
    ObjectText(Member("id", JStr(d.id), m2));
    assert Parts(NoMembers) == [];
    assert Parts(Member("id", JStr(d.id), m2)) == DeviceParts(d);
  }

  function SegmentParts(s: Segment): seq<Bytes> {
    [Pair("chunk_file", Quote(s.chunkFile)), Pair("blake3_hash", Quote(s.blake3Hash)), Pair("start_time", Quote(s.startTime)),
     Pair("duration_seconds", s.duration), Pair("continuity_hash", Quote(s.continuityHash))]
  }

  lemma SegmentText(s: Segment)
    ensures Render(SegmentTree(s)) == Braces(SegmentParts(s))
  {
    hide IsPlain, RenderMembers, Quote, Pair, Join, Parts;
    NamesPlain();
    var m5 := Member("continuity_hash", JStr(s.continuityHash), NoMembers);
    var m4 := Member("duration_seconds", JNum(s.duration), m5);
    var m3 := Member("start_time", JStr(s.startTime), m4);
    var m2 := Member("blake3_hash", JStr(s.blake3Hash), m3);
    PartsOf("continuity_hash", JStr(s.continuityHash), NoMembers);
    PartsOf("duration_seconds", JNum(s.duration), m5);
    PartsOf("start_time", JStr(s.startTime), m4);
    PartsOf("blake3_hash", JStr(s.blake3Hash), m3);
    PartsOf("chunk_file", JStr(s.chunkFile), m2);
    ObjectText(Member("chunk_file", JStr(s.chunkFile), m2));
    assert Parts(NoMembers) == [];
    assert Parts(Member("chunk_file", JStr(s.chunkFile), m2)) == SegmentParts(s);
  }

  function SegmentTexts(ss: seq<Segment>): seq<Bytes> {
    seq(|ss|, i requires 0 <= i < |ss| => Braces(SegmentParts(ss[i])))
  }

  function Quoted(ss: seq<Bytes>): seq<Bytes> { seq(|ss|, i requires 0 <= i < |ss| => Quote(ss[i])) }

  lemma {:induction false} SegmentsText(ss: seq<Segment>)
    ensures RenderItems(SegmentItems(ss)) == Join(SegmentTexts(ss))
  {
    hide SegmentTree, Braces, SegmentParts;
    if ss != [] {
      SegmentsText(ss[1..]);
      SegmentText(ss[0]);
      assert SegmentTexts(ss)[1..] == SegmentTexts(ss[1..]);
      assert SegmentItems(ss[1..]).NoItems? <==> ss[1..] == [];
    }
  }

  lemma {:induction false} StringsText(ss: seq<Bytes>)
    ensures RenderItems(StringItems(ss)) == Join(Quoted(ss))
  {
    hide Quote;
    if ss != [] {
      StringsText(ss[1..]);
      assert Quoted(ss)[1..] == Quoted(ss[1..]);
      assert StringItems(ss[1..]).NoItems? <==> ss[1..] == [];
    }
  }

  function RecipientParts(r: Recipient): seq<Bytes> {
    [Pair("recipient_id", Quote(r.id)), Pair("recipient_pub", Quote(r.pub)), Pair("enc", Quote(r.enc)),
     Pair("wrapped_cek", Quote(r.wrappedCek))]
  }

  lemma RecipientText(r: Recipient)
    ensures Render(RecipientTree(r)) == Braces(RecipientParts(r))
  {
    hide IsPlain, RenderMembers, Quote, Pair, Join, Parts;
    NamesPlain();
    var m4 := Member("wrapped_cek", JStr(r.wrappedCek), NoMembers);
    var m3 := Member("enc", JStr(r.enc), m4);
    var m2 := Member("recipient_pub", JStr(r.pub), m3);
    PartsOf("wrapped_cek", JStr(r.wrappedCek), NoMembers);
    PartsOf("enc", JStr(r.enc), m4);
    PartsOf("recipient_pub", JStr(r.pub), m3);
    PartsOf("recipient_id", JStr(r.id), m2);
    ObjectText(Member("recipient_id", JStr(r.id), m2));
    assert Parts(NoMembers) == [];
    assert Parts(Member("recipient_id", JStr(r.id), m2)) == RecipientParts(r);
  }

  function RecipientTexts(rs: seq<Recipient>): seq<Bytes> {
    seq(|rs|, i requires 0 <= i < |rs| => Braces(RecipientParts(rs[i])))
  }

  lemma {:induction false} RecipientsText(rs: seq<Recipient>)
    ensures RenderItems(RecipientItems(rs)) == Join(RecipientTexts(rs))
  {
    hide RecipientTree, Braces, RecipientParts;
    if rs != [] {
      RecipientsText(rs[1..]);
      RecipientText(rs[0]);
      assert RecipientTexts(rs)[1..] == RecipientTexts(rs[1..]);
      assert RecipientItems(rs[1..]).NoItems? <==> rs[1..] == [];
    }
  }

  function EncryptionParts(e: Encryption): seq<Bytes> {
    [Pair("content_aead", Quote(e.contentAead)),
     Pair("hpke", Braces([Pair("kem", Quote(e.kem)), Pair("kdf", Quote(e.kdf)), Pair("aead", Quote(e.aead))])),
     Pair("recipients", Brackets(RecipientTexts(e.recipients)))]
  }

  lemma HpkeText(e: Encryption)
    ensures Render(JObj(Member("kem", JStr(e.kem), Member("kdf", JStr(e.kdf), Member("aead", JStr(e.aead), NoMembers)))))
         == Braces([Pair("kem", Quote(e.kem)), Pair("kdf", Quote(e.kdf)), Pair("aead", Quote(e.aead))])
  {
    hide IsPlain, RenderMembers, Quote, Pair, Join, Parts;
    NamesPlain();
    var m3 := Member("aead", JStr(e.aead), NoMembers);
    var m2 := Member("kdf", JStr(e.kdf), m3);
    PartsOf("aead", JStr(e.aead), NoMembers);
    PartsOf("kdf", JStr(e.kdf), m3);
    PartsOf("kem", JStr(e.kem), m2);
    ObjectText(Member("kem", JStr(e.kem), m2));
    assert Parts(NoMembers) == [];
    assert Parts(Member("kem", JStr(e.kem), m2))
        == [Pair("kem", Quote(e.kem)), Pair("kdf", Quote(e.kdf)), Pair("aead", Quote(e.aead))];
  }

  lemma EncryptionText(e: Encryption)
    ensures Render(EncryptionTree(e)) == Braces(EncryptionParts(e))
  {
    hide IsPlain, RenderMembers, Quote, Pair, Join, Parts, RecipientTexts;
    NamesPlain();
    var hpke := JObj(Member("kem", JStr(e.kem), Member("kdf", JStr(e.kdf), Member("aead", JStr(e.aead), NoMembers))));
    HpkeText(e);
    RecipientsText(e.recipients);
    var list := JArr(RecipientItems(e.recipients));
    assert Render(list) == Brackets(RecipientTexts(e.recipients));
    var m3 := Member("recipients", list, NoMembers);
    var m2 := Member("hpke", hpke, m3);
    PartsOf("recipients", list, NoMembers);
    PartsOf("hpke", hpke, m3);
    PartsOf("content_aead", JStr(e.contentAead), m2);
    ObjectText(Member("content_aead", JStr(e.contentAead), m2));
    assert Parts(NoMembers) == [];
    assert Parts(Member("content_aead", JStr(e.contentAead), m2)) == EncryptionParts(e);
  }

  function ChronicleParts(m: Manifest): seq<Bytes> {
    (if m.encryption.Some? then [Pair("encryption", Braces(EncryptionParts(m.encryption.value)))] else [])
    + (if m.sequence.Some? then [Pair("sequence", Dec(m.sequence.value))] else [])
    + (if m.prev.Some? then [Pair("prev_archive_hash", Quote(m.prev.value))] else [])
  }

  lemma ChronicleText(m: Manifest)
    ensures Parts(ChronicleMembers(m)) == ChronicleParts(m)
  {
    hide IsPlain, Render, Quote, Dec, Pair, Parts, EncryptionTree, EncryptionParts, Braces;
    NamesPlain();
    var prev := if m.prev.Some? then Member("prev_archive_hash", JStr(m.prev.value), NoMembers) else NoMembers;
    var sequence := if m.sequence.Some? then Member("sequence", JNum(Dec(m.sequence.value)), prev) else prev;
    assert Parts(NoMembers) == [];
    if m.prev.Some? { PartsOf("prev_archive_hash", JStr(m.prev.value), NoMembers); LeafText(m.prev.value, 0); }
    if m.sequence.Some? { PartsOf("sequence", JNum(Dec(m.sequence.value)), prev); LeafText("", m.sequence.value); }
    if m.encryption.Some? { PartsOf("encryption", EncryptionTree(m.encryption.value), sequence); EncryptionText(m.encryption.value); }
  }

  lemma LeafText(s: Bytes, n: nat)
    ensures Render(JStr(s)) == Quote(s) && Render(JNum(Dec(n))) == Dec(n)
  {
  }

  function ManifestParts(m: Manifest): seq<Bytes> {
    [Pair("trst_version", Quote(m.version)), Pair("profile", Quote(m.profile)), Pair("device", Braces(DeviceParts(m.device))),
     Pair("metadata", Braces([Pair("started_at", Quote(m.metadata.startedAt)), Pair("ended_at", Quote(m.metadata.endedAt))]
                             + Parts(m.metadata.fields))),
     Pair("chunk", Braces([Pair("size_bytes", Dec(m.chunkSize)), Pair("duration_seconds", m.chunkDuration)])),
     Pair("segments", Brackets(SegmentTexts(m.segments))), Pair("claims", Brackets(Quoted(m.claims)))]
    + ChronicleParts(m)
  }

  lemma MetadataText(d: Metadata)
    ensures Render(MetadataTree(d))
         == Braces([Pair("started_at", Quote(d.startedAt)), Pair("ended_at", Quote(d.endedAt))] + Parts(d.fields))
  {
    hide IsPlain, RenderMembers, Quote, Pair, Join, Parts;
    NamesPlain();
    var m2 := Member("ended_at", JStr(d.endedAt), d.fields);
    PartsOf("ended_at", JStr(d.endedAt), d.fields);
    PartsOf("started_at", JStr(d.startedAt), m2);
    ObjectText(Member("started_at", JStr(d.startedAt), m2));
    assert Parts(Member("started_at", JStr(d.startedAt), m2))
        == [Pair("started_at", Quote(d.startedAt)), Pair("ended_at", Quote(d.endedAt))] + Parts(d.fields);
  }

  lemma ChunkText(size: nat, duration: NumText)
    ensures Render(JObj(Member("size_bytes", JNum(Dec(size)), Member("duration_seconds", JNum(duration), NoMembers))))
         == Braces([Pair("size_bytes", Dec(size)), Pair("duration_seconds", duration)])
  {
    hide IsPlain, RenderMembers, Dec, Pair, Join, Parts;
    NamesPlain();
    var m2 := Member("duration_seconds", JNum(duration), NoMembers);
    PartsOf("duration_seconds", JNum(duration), NoMembers);
    PartsOf("size_bytes", JNum(Dec(size)), m2);
    ObjectText(Member("size_bytes", JNum(Dec(size)), m2));
    assert Parts(NoMembers) == [];
    assert Parts(Member("size_bytes", JNum(Dec(size)), m2)) == [Pair("size_bytes", Dec(size)), Pair("duration_seconds", duration)];
  }

  lemma ListsText(m: Manifest)
    ensures Render(JArr(SegmentItems(m.segments))) == Brackets(SegmentTexts(m.segments))
    ensures Render(JArr(StringItems(m.claims))) == Brackets(Quoted(m.claims))
  {
    hide SegmentItems, StringItems, SegmentTexts, Quoted, Join;
    SegmentsText(m.segments);
    StringsText(m.claims);
  }

  /** The exact text of a manifest, its signature left out. */
  lemma ManifestText(m: Manifest)
    ensures ManifestBytes(m) == Braces(ManifestParts(m))
  {
    hide IsPlain, Render, Quote, Dec, Pair, Join, Parts, DeviceTree, MetadataTree, SegmentItems, StringItems, ChronicleMembers,
         ChronicleParts, DeviceParts, SegmentTexts, Quoted, Braces, Brackets;
    NamesPlain();
    var m7 := Member("claims", JArr(StringItems(m.claims)), ChronicleMembers(m));
    var m6 := Member("segments", JArr(SegmentItems(m.segments)), m7);
    var chunk := JObj(Member("size_bytes", JNum(Dec(m.chunkSize)), Member("duration_seconds", JNum(m.chunkDuration), NoMembers)));
    var m5 := Member("chunk", chunk, m6);
    var m4 := Member("metadata", MetadataTree(m.metadata), m5);
    var m3 := Member("device", DeviceTree(m.device), m4);
    var m2 := Member("profile", JStr(m.profile), m3);
    var m1 := Member("trst_version", JStr(m.version), m2);
    assert ManifestTree(m) == JObj(m1);
    ChronicleText(m);
    ListsText(m);
    ChunkText(m.chunkSize, m.chunkDuration);
    MetadataText(m.metadata);
    DeviceText(m.device);
    LeafText(m.profile, 0);
    LeafText(m.version, 0);
    PartsOf("claims", JArr(StringItems(m.claims)), ChronicleMembers(m));
    PartsOf("segments", JArr(SegmentItems(m.segments)), m7);
    PartsOf("chunk", chunk, m6);
    PartsOf("metadata", MetadataTree(m.metadata), m5);
    PartsOf("device", DeviceTree(m.device), m4);
    PartsOf("profile", JStr(m.profile), m3);
    PartsOf("trst_version", JStr(m.version), m2);
    ObjectText(m1);
    assert Parts(m1) == ManifestParts(m);
  }

  // ── What the device signs, told from the arguments ─────────────────────────

  /** `rekey` signs, with both keys, a text that says exactly what it was called with. */
  lemma CreatedRotationText(c: Crypto, oldSecret: Bytes, oldEpoch: nat, newSecret: Bytes, newAgreement: Bytes,
                            sequence: nat, prev: Bytes, rotatedAt: Bytes)
    requires SignatureLaws(c) && oldEpoch < U32_LIMIT
    ensures var r := CreateRotation(c, oldSecret, oldEpoch, newSecret, newAgreement, sequence, prev, rotatedAt);
            var text := Braces([
              Pair("trst_version", Quote("0.2.0")), Pair("kind", Quote("rotation")), Pair("sequence", Dec(sequence)),
              Pair("prev_archive_hash", Quote(prev)),
              Pair("old", Braces([Pair("public_key", Quote(c.publicOf(oldSecret))), Pair("key_epoch", Dec(oldEpoch))])),
              Pair("new", Braces([Pair("public_key", Quote(c.publicOf(newSecret))), Pair("key_agreement_public", Quote(newAgreement)),
                                  Pair("key_epoch", Dec(if oldEpoch + 1 == U32_LIMIT then 0 else oldEpoch + 1))])),
              Pair("rotated_at", Quote(rotatedAt))]);
            && RotationBytes(r) == text && r.oldKey == c.publicOf(oldSecret) && r.newKey == c.publicOf(newSecret)
            && c.verifies(c.publicOf(oldSecret), text, r.sigOld) && c.verifies(c.publicOf(newSecret), text, r.sigNew)
  {
    hide Braces, Pair, Quote, Dec, Render;
    var r := CreateRotation(c, oldSecret, oldEpoch, newSecret, newAgreement, sequence, prev, rotatedAt);
    assert RotationTree(r) == RotationTree(r.(sigOld := "", sigNew := ""));
    RotationText(r);
  }

  /** `witness` signs a text that says exactly what it was called with. */
  lemma CreatedWitnessText(c: Crypto, secret: Bytes, sequence: nat, tip: Bytes, signedAt: Bytes)
    requires SignatureLaws(c)
    ensures var q := CreateWitness(c, secret, sequence, tip, signedAt);
            var text := Braces([Pair("device_pub", Quote(c.publicOf(secret))), Pair("sequence", Dec(sequence)),
                                Pair("tip", Quote(tip)), Pair("signed_at", Quote(signedAt))]);
            && WitnessBytes(q) == text && c.verifies(c.publicOf(secret), text, q.signature) && q.rotation == None
            && q.devicePub == c.publicOf(secret) && q.sequence == sequence && q.tip == tip && q.signedAt == signedAt
  {
    hide Braces, Pair, Quote, Dec, Render;
    var q := CreateWitness(c, secret, sequence, tip, signedAt);
    assert WitnessTree(q) == WitnessTree(q.(signature := ""));
    WitnessText(q);
  }
}
