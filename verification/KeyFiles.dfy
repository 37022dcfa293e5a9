/**
 The three passphrase-protected containers: a sealed secret, a single signing key and a device
 bundle. Each is a header line, a line of JSON and then raw ciphertext, which may hold any byte.
 */
module KeyFiles {
  import opened Text
  import opened Json
  import opened Primitives
  import opened Format

  const MIN_ITERATIONS: nat := 600_000
  const MAX_ITERATIONS: nat := 10_000_000

  datatype Kind = SealedSecret | SigningKey | DeviceBundle

  function HeaderLine(k: Kind): Bytes {
    match k
    case SealedSecret => "SEALEDGE-SEALED-V1"
    case SigningKey => "SEALEDGE-KEY-V1"
    case DeviceBundle => "SEALEDGE-KEY-V2"
  }

  function VersionOf(k: Kind): nat { if k == DeviceBundle then 2 else 1 }

  // ── Writing ────────────────────────────────────────────────────────────────

  function Metadata(version: nat, salt: Bytes, nonce: Bytes, iterations: nat): Json {
    JObj(Member("iterations", JNum(Dec(iterations)),
         Member("nonce", JStr(nonce),
         Member("salt", JStr(salt),
         Member("version", JNum(Dec(version)), NoMembers)))))
  }

  /** Header line, metadata line, ciphertext. */
  function Pack(header: Bytes, meta: Bytes, ct: Bytes): Bytes { header + "\n" + meta + "\n" + ct }

  /** The part the three writers share, given the salt and nonce they draw. */
  function Export(c: Crypto, k: Kind, plaintext: Bytes, passphrase: Bytes, salt: Bytes, nonce: Bytes): Bytes {
    Pack(HeaderLine(k),
         Render(Metadata(VersionOf(k), c.base64(salt), c.base64(nonce), MIN_ITERATIONS)),
         c.seal(c.pbkdf2(passphrase, salt, MIN_ITERATIONS), nonce, "", plaintext))
  }

  // ── Reading ────────────────────────────────────────────────────────────────

  /** `iter().position(|&b| b == b'\n')`. */
  function FindNewline(data: Bytes): (r: Option<nat>)
    ensures r.Some? ==> r.value < |data| && data[r.value] == '\n' && '\n' !in data[..r.value]
    ensures r.None? ==> '\n' !in data
  {
    if data == [] then None
    else if data[0] == '\n' then Some(0)
    else
      match FindNewline(data[1..])
      case None => None
      case Some(i) =>
        assert data[..i + 1] == [data[0]] + data[1..][..i];
        Some(i + 1)
  }

  datatype Parts = Parts(header: Bytes, meta: Bytes, ct: Bytes)

  /** The two lines and what follows them. */
  function Unpack(data: Bytes): Option<Parts> {
    match FindNewline(data)
    case None => None
    case Some(h) =>
      match FindNewline(data[h + 1..])
      case None => None
      case Some(m) => Some(Parts(data[..h], data[h + 1..][..m], data[h + 1..][m + 1..]))
  }

  /** `meta[key]`; the last of several equal keys is the one an object keeps. */
  function Lookup(m: Members, key: Bytes): Option<Json> {
    match m
    case NoMembers => None
    case Member(k, v, rest) =>
      var later := Lookup(rest, key);
      if later.Some? then later else if k == key then Some(v) else None
  }

  function Field(v: Json, key: Bytes): Option<Json> { if v.JObj? then Lookup(v.members, key) else None }

  function AsStr(v: Option<Json>): Option<Bytes> { if v.Some? && v.value.JStr? then Some(v.value.s) else None }

  function AsU64(v: Option<Json>): Option<nat> {
    if v.Some? && v.value.JNum? && AllDigits(v.value.text) && Dec(DecValue(v.value.text)) == v.value.text
       && DecValue(v.value.text) < U64_LIMIT
    then Some(DecValue(v.value.text)) else None
  }

  /** A missing salt or nonce is an error for a signing key and an empty text for the other two. */
  function TextField(k: Kind, v: Json, key: Bytes): Option<Bytes> {
    var s := AsStr(Field(v, key));
    if s.Some? || k == SigningKey then s else Some("")
  }

  function Decoded(c: Crypto, text: Option<Bytes>): Option<Bytes> {
    if text.None? then None else c.unbase64(text.value)
  }

  datatype Opening = Opening(salt: Bytes, nonce: Bytes, iterations: nat)

  /** The checks on the metadata line; only a sealed secret looks at the version. */
  function ReadMetadata(c: Crypto, k: Kind, v: Json): (r: Option<Opening>)
    ensures r.Some? <==>
              && (k == SealedSecret ==> AsU64(Field(v, "version")) == Some(1))
              && Decoded(c, TextField(k, v, "salt")).Some?
              && Decoded(c, TextField(k, v, "nonce")).Some? && |Decoded(c, TextField(k, v, "nonce")).value| == NONCE_LEN
              && AsU64(Field(v, "iterations")).Some? && MIN_ITERATIONS <= AsU64(Field(v, "iterations")).value <= MAX_ITERATIONS
    ensures r.Some? ==> MIN_ITERATIONS <= r.value.iterations <= MAX_ITERATIONS && |r.value.nonce| == NONCE_LEN
  {
    var salt, nonce := Decoded(c, TextField(k, v, "salt")), Decoded(c, TextField(k, v, "nonce"));
    var iterations := AsU64(Field(v, "iterations"));
    if k == SealedSecret && AsU64(Field(v, "version")) != Some(1) then None
    else if salt.None? || nonce.None? || iterations.None? then None
    else if !(MIN_ITERATIONS <= iterations.value <= MAX_ITERATIONS) || |nonce.value| != NONCE_LEN then None
    else Some(Opening(salt.value, nonce.value, iterations.value))
  }

  /** The part the three readers share: the decrypted plaintext. */
  function Import(c: Crypto, k: Kind, data: Bytes, passphrase: Bytes): Option<Bytes> {
    match Unpack(data)
    case None => None
    case Some(p) =>
      if p.header != HeaderLine(k) then None else
        match Parse(p.meta)
        case None => None
        case Some(v) =>
          match ReadMetadata(c, k, v)
          case None => None
          case Some(o) => c.open(c.pbkdf2(passphrase, o.salt, o.iterations), o.nonce, "", p.ct)
  }

  // ── The three containers ───────────────────────────────────────────────────

  /** `import_secret_encrypted`: a signing key is 32 bytes. */
  function ImportKey(c: Crypto, data: Bytes, passphrase: Bytes): Option<Bytes> {
    var plaintext := Import(c, SigningKey, data, passphrase);
    if plaintext.Some? && |plaintext.value| == 32 then plaintext else None
  }

  datatype Bundle = Bundle(signing: Key32, agreement: Key32)

  /** `to_plaintext`. */
  function BundleText(c: Crypto, b: Bundle): Bytes { Render(BundleTree(c, b)) }

  function BundleTree(c: Crypto, b: Bundle): Json {
    JObj(Member("version", JNum(Dec(2)),
         Member("ed25519_secret", JStr("ed25519:" + c.base64(b.signing)),
         Member("x25519_secret", JStr("x25519:" + c.base64(b.agreement)), NoMembers))))
  }

  function StripPrefix(s: Bytes, prefix: Bytes): Option<Bytes> {
    if prefix <= s then Some(s[|prefix|..]) else None
  }

  function AsKey(b: Option<Bytes>): Option<Key32> {
    if b.Some? && |b.value| == 32 then Some(b.value) else None
  }

  /** `DeviceKeypair::import_secret`: the prefixed form, or 64 hexadecimal digits. */
  function ImportSigning(c: Crypto, s: Bytes): Option<Key32> {
    if StripPrefix(s, "ed25519:").Some? then AsKey(Decoded(c, StripPrefix(s, "ed25519:")))
    else if |s| == 64 then AsKey(HexDecode(s))
    else None
  }

  /** `KeyAgreementKeypair::import_secret`. */
  function ImportAgreement(c: Crypto, s: Bytes): Option<Key32> {
    AsKey(Decoded(c, StripPrefix(s, "x25519:")))
  }

  /** How often a key occurs: a repeated field is refused when a struct is read. */
  function Occurs(m: Members, key: Bytes): nat {
    match m
    case NoMembers => 0
    case Member(k, _, rest) => (if k == key then 1 else 0) + Occurs(rest, key)
  }

  predicate OncePerField(v: Json) {
    && v.JObj?
    && Occurs(v.members, "version") == 1
    && Occurs(v.members, "ed25519_secret") == 1
    && Occurs(v.members, "x25519_secret") == 1
  }

  /** `from_plaintext`. */
  function ParseBundle(c: Crypto, text: Bytes): Option<Bundle> {
    var v := Parse(text);
    if v.None? || !OncePerField(v.value) || AsU64(Field(v.value, "version")) != Some(2) then None else
      var ed, x := AsStr(Field(v.value, "ed25519_secret")), AsStr(Field(v.value, "x25519_secret"));
      if ed.None? || x.None? then None else
        var signing, agreement := ImportSigning(c, ed.value), ImportAgreement(c, x.value);
        if signing.None? || agreement.None? then None else Some(Bundle(signing.value, agreement.value))
  }

  /** `import_encrypted`. */
  function ImportBundle(c: Crypto, data: Bytes, passphrase: Bytes): Option<Bundle> {
    var plaintext := Import(c, DeviceBundle, data, passphrase);
    if plaintext.None? then None else ParseBundle(c, plaintext.value)
  }

  // ── Opening undoes sealing ─────────────────────────────────────────────────

  /** The first newline is where the first line ends, whatever follows it. */
  lemma {:induction false} FindLineEnd(line: Bytes, rest: Bytes)
    requires OneLine(line)
    ensures FindNewline(line + "\n" + rest) == Some(|line|)
  {
    var t := line + "\n" + rest;
    if line == [] {
      assert t[0] == '\n';
    } else {
      FindLineEnd(line[1..], rest);
      assert t[0] == line[0] && t[0] != '\n';
      assert t[1..] == line[1..] + "\n" + rest;
    }
  }

  /** Newlines inside the ciphertext are not mistaken for line ends. */
  lemma UnpackPack(header: Bytes, meta: Bytes, ct: Bytes)
    requires OneLine(header) && OneLine(meta)
    ensures Unpack(Pack(header, meta, ct)) == Some(Parts(header, meta, ct))
  {
    var data, tail := Pack(header, meta, ct), meta + "\n" + ct;
    assert data == header + "\n" + tail;
    FindLineEnd(header, tail);
    assert data[..|header|] == header && data[|header| + 1..] == tail;
    FindLineEnd(meta, ct);
    assert tail[..|meta|] == meta && tail[|meta| + 1..] == ct;
  }

  lemma HeaderOneLine(k: Kind)
    ensures OneLine(HeaderLine(k))
  {
  }

  lemma NumberReads(n: nat)
    requires n < U64_LIMIT
    ensures AsU64(Some(JNum(Dec(n)))) == Some(n)
  {
    DecRoundTrip(n);
  }

  lemma MetadataFields(version: nat, salt: Bytes, nonce: Bytes, iterations: nat)
    ensures var v := Metadata(version, salt, nonce, iterations);
            && Field(v, "iterations") == Some(JNum(Dec(iterations)))
            && Field(v, "nonce") == Some(JStr(nonce))
            && Field(v, "salt") == Some(JStr(salt))
            && Field(v, "version") == Some(JNum(Dec(version)))
  {
    var m4 := Member("version", JNum(Dec(version)), NoMembers);
    var m3 := Member("salt", JStr(salt), m4);
    var m2 := Member("nonce", JStr(nonce), m3);
    assert "iterations"[0] == 'i' && "nonce"[0] == 'n' && "salt"[0] == 's' && "version"[0] == 'v';
    LookupOne("version", JNum(Dec(version)), NoMembers);
    LookupOne("salt", JStr(salt), m4);
    LookupOne("nonce", JStr(nonce), m3);
    LookupOne("iterations", JNum(Dec(iterations)), m2);
  }

  /** Looking up in an object, one member at a time. */
  lemma LookupOne(key: Bytes, value: Json, rest: Members)
    ensures Lookup(rest, key).None? ==> Lookup(Member(key, value, rest), key) == Some(value)
    ensures forall k :: k != key ==> Lookup(Member(key, value, rest), k) == Lookup(rest, k)
  {
    forall k | k != key ensures Lookup(Member(key, value, rest), k) == Lookup(rest, k) {
    }
  }

  lemma MetadataReads(c: Crypto, k: Kind, salt: Bytes, nonce: Bytes)
    requires Base64Laws(c) && |nonce| == NONCE_LEN
    ensures ReadMetadata(c, k, Metadata(VersionOf(k), c.base64(salt), c.base64(nonce), MIN_ITERATIONS))
            == Some(Opening(salt, nonce, MIN_ITERATIONS))
  {
    hide Metadata, AsU64, Field;
    MetadataFields(VersionOf(k), c.base64(salt), c.base64(nonce), MIN_ITERATIONS);
    NumberReads(MIN_ITERATIONS);
    NumberReads(VersionOf(k));
    assert c.unbase64(c.base64(salt)) == Some(salt) && c.unbase64(c.base64(nonce)) == Some(nonce);
  }

  /** Each reader gets back the plaintext its writer was given, for every ciphertext. */
  lemma ImportExport(c: Crypto, k: Kind, plaintext: Bytes, passphrase: Bytes, salt: Bytes, nonce: Bytes)
    requires AeadLaws(c) && Base64Laws(c) && |nonce| == NONCE_LEN
    ensures Import(c, k, Export(c, k, plaintext, passphrase, salt, nonce), passphrase) == Some(plaintext)
  {
    hide Render, Parse, Metadata, ReadMetadata, Unpack, Pack, OneLine, HeaderLine;
    var v := Metadata(VersionOf(k), c.base64(salt), c.base64(nonce), MIN_ITERATIONS);
    var key := c.pbkdf2(passphrase, salt, MIN_ITERATIONS);
    RenderOneLine(v);
    HeaderOneLine(k);
    UnpackPack(HeaderLine(k), Render(v), c.seal(key, nonce, "", plaintext));
    ParseRender(v);
    MetadataReads(c, k, salt, nonce);
  }

  /** A stored signing key is recovered. */
  lemma KeyRoundTrip(c: Crypto, secret: Key32, passphrase: Bytes, salt: Bytes, nonce: Bytes)
    requires AeadLaws(c) && Base64Laws(c) && |nonce| == NONCE_LEN
    ensures ImportKey(c, Export(c, SigningKey, secret, passphrase, salt, nonce), passphrase) == Some(secret)
  {
    hide Import, Export;
    ImportExport(c, SigningKey, secret, passphrase, salt, nonce);
  }

  lemma BundleFields(c: Crypto, b: Bundle)
    ensures var v := BundleTree(c, b);
            && OncePerField(v)
            && Field(v, "version") == Some(JNum(Dec(2)))
            && Field(v, "ed25519_secret") == Some(JStr("ed25519:" + c.base64(b.signing)))
            && Field(v, "x25519_secret") == Some(JStr("x25519:" + c.base64(b.agreement)))
  {
    var x := Member("x25519_secret", JStr("x25519:" + c.base64(b.agreement)), NoMembers);
    var ed := Member("ed25519_secret", JStr("ed25519:" + c.base64(b.signing)), x);
    assert "x25519_secret"[0] == 'x' && "ed25519_secret"[0] == 'e' && "version"[0] == 'v';
    LookupOne("x25519_secret", JStr("x25519:" + c.base64(b.agreement)), NoMembers);
    LookupOne("ed25519_secret", JStr("ed25519:" + c.base64(b.signing)), x);
    LookupOne("version", JNum(Dec(2)), ed);
    assert Occurs(x, "x25519_secret") == 1 && Occurs(x, "ed25519_secret") == 0 && Occurs(x, "version") == 0;
    assert Occurs(ed, "x25519_secret") == 1 && Occurs(ed, "ed25519_secret") == 1 && Occurs(ed, "version") == 0;
  }

  lemma PrefixStrips(prefix: Bytes, s: Bytes)
    ensures StripPrefix(prefix + s, prefix) == Some(s)
  {
  }

  lemma BundleTextReads(c: Crypto, b: Bundle)
    requires Base64Laws(c)
    ensures ParseBundle(c, BundleText(c, b)) == Some(b)
  {
    hide Render, Parse, BundleTree, Field, OncePerField, AsU64, StripPrefix;
    ParseRender(BundleTree(c, b));
    BundleFields(c, b);
    NumberReads(2);
    PrefixStrips("ed25519:", c.base64(b.signing));
    PrefixStrips("x25519:", c.base64(b.agreement));
    assert c.unbase64(c.base64(b.signing)) == Some(b.signing);
    assert c.unbase64(c.base64(b.agreement)) == Some(b.agreement);
  }

  /** Both secrets of a stored bundle are recovered. */
  lemma BundleRoundTrip(c: Crypto, b: Bundle, passphrase: Bytes, salt: Bytes, nonce: Bytes)
    requires AeadLaws(c) && Base64Laws(c) && |nonce| == NONCE_LEN
    ensures ImportBundle(c, Export(c, DeviceBundle, BundleText(c, b), passphrase, salt, nonce), passphrase) == Some(b)
  {
    hide Import, Export, ParseBundle, BundleText;
    ImportExport(c, DeviceBundle, BundleText(c, b), passphrase, salt, nonce);
    BundleTextReads(c, b);
  }

  lemma HeadersDiffer(j: Kind, k: Kind)
    requires j != k
    ensures HeaderLine(j) != HeaderLine(k)
  {
    assert "SEALEDGE-SEALED-V1"[9] == 'S' && "SEALEDGE-KEY-V1"[9] == 'K' && "SEALEDGE-KEY-V2"[9] == 'K';
    assert "SEALEDGE-KEY-V1"[14] == '1' && "SEALEDGE-KEY-V2"[14] == '2';
  }

  /** No file, however it came about, is opened by two of the readers, under any passphrases. */
  lemma OneReaderOnly(c: Crypto, data: Bytes, j: Kind, k: Kind, p: Bytes, q: Bytes)
    requires j != k && Import(c, j, data, p).Some?
    ensures Import(c, k, data, q).None?
  {
    hide HeaderLine, Unpack, Parse, ReadMetadata;
    HeadersDiffer(j, k);
  }

  /** What one writer produced is refused by the other two readers, with the right passphrase or any other. */
  lemma ForeignRefused(c: Crypto, j: Kind, k: Kind, plaintext: Bytes, p: Bytes, salt: Bytes, nonce: Bytes, q: Bytes)
    requires j != k
    ensures Import(c, k, Export(c, j, plaintext, p, salt, nonce), q).None?
  {
    hide Render, Parse, Metadata, ReadMetadata, Unpack, Pack, OneLine, HeaderLine;
    var v := Metadata(VersionOf(j), c.base64(salt), c.base64(nonce), MIN_ITERATIONS);
    RenderOneLine(v);
    HeaderOneLine(j);
    UnpackPack(HeaderLine(j), Render(v), c.seal(c.pbkdf2(p, salt, MIN_ITERATIONS), nonce, "", plaintext));
    HeadersDiffer(j, k);
  }

  // ── Containers, written out ────────────────────────────────────────────────

  /** The text a reader takes for a field: a missing one is empty, except for a signing key, where it is an error. */
  predicate Says(k: Kind, v: Json, key: Bytes, text: Bytes) {
    var f := Field(v, key);
    if f.Some? && f.value.JStr? then text == f.value.s else k != SigningKey && text == ""
  }

  /** The metadata line names this salt, nonce and iteration count, within the readers' limits. */
  ghost predicate MetadataNames(c: Crypto, k: Kind, v: Json, salt: Bytes, nonce: Bytes, iterations: nat) {
    && (exists text :: Says(k, v, "salt", text) && c.unbase64(text) == Some(salt))
    && (exists text :: Says(k, v, "nonce", text) && c.unbase64(text) == Some(nonce)) && |nonce| == 12
    && Field(v, "iterations") == Some(JNum(Dec(iterations))) && 600_000 <= iterations <= 10_000_000
    && (k == SealedSecret ==> Field(v, "version") == Some(JNum(Dec(1))))
  }

  lemma NumberMeans(f: Option<Json>, n: nat)
    requires n < U64_LIMIT
    ensures AsU64(f) == Some(n) <==> f == Some(JNum(Dec(n)))
  {
    NumberReads(n);
  }

  lemma MetadataMeans(c: Crypto, k: Kind, v: Json, salt: Bytes, nonce: Bytes, iterations: nat)
    ensures ReadMetadata(c, k, v) == Some(Opening(salt, nonce, iterations)) <==> MetadataNames(c, k, v, salt, nonce, iterations)
  {
    hide Field, AsU64, Dec;
    if iterations < U64_LIMIT { NumberMeans(Field(v, "iterations"), iterations); }
    NumberMeans(Field(v, "version"), 1);
    TextMeans(k, v, "salt");
    TextMeans(k, v, "nonce");
  }

  lemma TextMeans(k: Kind, v: Json, key: Bytes)
    ensures forall text :: TextField(k, v, key) == Some(text) <==> Says(k, v, key, text)
  {
    hide Field;
  }

  /** `data` is a container of this kind with these two parts after its title. */
  predicate IsContainer(k: Kind, data: Bytes, meta: Bytes, ct: Bytes) {
    && OneLine(meta)
    && (k == SealedSecret ==> data == "SEALEDGE-SEALED-V1\n" + meta + "\n" + ct)
    && (k == SigningKey ==> data == "SEALEDGE-KEY-V1\n" + meta + "\n" + ct)
    && (k == DeviceBundle ==> data == "SEALEDGE-KEY-V2\n" + meta + "\n" + ct)
  }

  lemma ContainerMeans(k: Kind, data: Bytes, meta: Bytes, ct: Bytes)
    ensures IsContainer(k, data, meta, ct) <==> Unpack(data) == Some(Parts(HeaderLine(k), meta, ct))
  {
    assert "SEALEDGE-SEALED-V1\n" == "SEALEDGE-SEALED-V1" + "\n";
    assert "SEALEDGE-KEY-V1\n" == "SEALEDGE-KEY-V1" + "\n";
    assert "SEALEDGE-KEY-V2\n" == "SEALEDGE-KEY-V2" + "\n";
    if IsContainer(k, data, meta, ct) {
      HeaderOneLine(k);
      UnpackPack(HeaderLine(k), meta, ct);
    }
    if Unpack(data) == Some(Parts(HeaderLine(k), meta, ct)) { UnpackedIsPacked(data, HeaderLine(k), meta, ct); }
  }

  lemma UnpackedIsPacked(data: Bytes, header: Bytes, meta: Bytes, ct: Bytes)
    requires Unpack(data) == Some(Parts(header, meta, ct))
    ensures data == header + "\n" + meta + "\n" + ct && OneLine(meta)
  {
    hide FindNewline;
    var h := FindNewline(data).value;
    var rest := data[h + 1..];
    var m := FindNewline(rest).value;
    assert data == data[..h] + [data[h]] + rest;
    assert rest == rest[..m] + [rest[m]] + rest[m + 1..];
  }

  /** Reading in full: a container opens to `plaintext` exactly when its title, metadata and ciphertext all fit. */
  lemma ImportMeans(c: Crypto, k: Kind, data: Bytes, passphrase: Bytes, plaintext: Bytes)
    ensures Import(c, k, data, passphrase) == Some(plaintext) <==>
              exists meta, ct, v, salt, nonce, iterations ::
                && IsContainer(k, data, meta, ct) && Parse(meta) == Some(v) && MetadataNames(c, k, v, salt, nonce, iterations)
                && c.open(c.pbkdf2(passphrase, salt, iterations), nonce, "", ct) == Some(plaintext)
  {
    hide Unpack, Parse, ReadMetadata, IsContainer, MetadataNames, HeaderLine;
    if Import(c, k, data, passphrase) == Some(plaintext) {
      var p := Unpack(data).value;
      var v := Parse(p.meta).value;
      var o := ReadMetadata(c, k, v).value;
      ContainerMeans(k, data, p.meta, p.ct);
      MetadataMeans(c, k, v, o.salt, o.nonce, o.iterations);
    }
    if meta, ct, v, salt, nonce, iterations :|
         && IsContainer(k, data, meta, ct) && Parse(meta) == Some(v) && MetadataNames(c, k, v, salt, nonce, iterations)
         && c.open(c.pbkdf2(passphrase, salt, iterations), nonce, "", ct) == Some(plaintext) {
      ContainerMeans(k, data, meta, ct);
      MetadataMeans(c, k, v, salt, nonce, iterations);
    }
  }

  /** A file opens as a signing key exactly when its plaintext is 32 bytes. */
  lemma KeyMeans(c: Crypto, data: Bytes, passphrase: Bytes, key: Bytes)
    ensures ImportKey(c, data, passphrase) == Some(key) <==> Import(c, SigningKey, data, passphrase) == Some(key) && |key| == 32
  {
    hide Import;
  }

  /** The two spellings of a signing secret: prefixed base64, or without the prefix 64 hexadecimal digits. */
  predicate SpellsSigning(c: Crypto, s: Bytes, key: Bytes) {
    if |s| >= 8 && s[..8] == "ed25519:" then c.unbase64(s[8..]) == Some(key) else |s| == 64 && HexDecode(s) == Some(key)
  }

  predicate SpellsAgreement(c: Crypto, s: Bytes, key: Bytes) {
    |s| >= 7 && s[..7] == "x25519:" && c.unbase64(s[7..]) == Some(key)
  }

  lemma SpellsSigningMeans(c: Crypto, s: Bytes, key: Key32)
    ensures ImportSigning(c, s) == Some(key) <==> SpellsSigning(c, s, key)
  {
    hide HexDecode;
    assert "ed25519:" <= s <==> |s| >= 8 && s[..8] == "ed25519:";
  }

  lemma SpellsAgreementMeans(c: Crypto, s: Bytes, key: Key32)
    ensures ImportAgreement(c, s) == Some(key) <==> SpellsAgreement(c, s, key)
  {
    assert "x25519:" <= s <==> |s| >= 7 && s[..7] == "x25519:";
  }

  /** How many members of an object have this name. */
  ghost function Named(m: Members, key: Bytes): nat {
    if m.NoMembers? then 0 else Named(m.rest, key) + if m.key == key then 1 else 0
  }

  lemma {:induction false} NamedIs(m: Members, key: Bytes)
    ensures Occurs(m, key) == Named(m, key)
    decreases m
  {
    if m.Member? { NamedIs(m.rest, key); }
  }

  /** `v` states version 2 and both secrets, each once. */
  ghost predicate StatesBundle(c: Crypto, v: Json, b: Bundle) {
    && v.JObj? && Named(v.members, "version") == 1 && Named(v.members, "ed25519_secret") == 1 && Named(v.members, "x25519_secret") == 1
    && Field(v, "version") == Some(JNum(Dec(2)))
    && (exists s :: Field(v, "ed25519_secret") == Some(JStr(s)) && SpellsSigning(c, s, b.signing))
    && (exists s :: Field(v, "x25519_secret") == Some(JStr(s)) && SpellsAgreement(c, s, b.agreement))
  }

  /** The bundle's plaintext is accepted exactly when it states version 2 and both secrets, each once. */
  lemma BundleMeans(c: Crypto, text: Bytes, b: Bundle)
    ensures ParseBundle(c, text) == Some(b) <==> Parse(text).Some? && StatesBundle(c, Parse(text).value, b)
  {
    hide Parse, Field, AsU64, Dec, ImportSigning, ImportAgreement, SpellsSigning, SpellsAgreement, Occurs, Named;
    if Parse(text).Some? {
      var v := Parse(text).value;
      NumberMeans(Field(v, "version"), 2);
      if v.JObj? {
        NamedIs(v.members, "version");
        NamedIs(v.members, "ed25519_secret");
        NamedIs(v.members, "x25519_secret");
      }
      var ed, x := Field(v, "ed25519_secret"), Field(v, "x25519_secret");
      if ed.Some? && ed.value.JStr? { SpellsSigningMeans(c, ed.value.s, b.signing); }
      if x.Some? && x.value.JStr? { SpellsAgreementMeans(c, x.value.s, b.agreement); }
    }
  }

  /** What a writer puts into its file: title, version, the drawn salt and nonce, the iteration count, and the ciphertext. */
  lemma ExportSays(c: Crypto, k: Kind, plaintext: Bytes, passphrase: Bytes, salt: Bytes, nonce: Bytes)
    requires AeadLaws(c)
    ensures exists meta, ct, v ::
              && IsContainer(k, Export(c, k, plaintext, passphrase, salt, nonce), meta, ct) && Parse(meta) == Some(v)
              && Field(v, "version") == Some(JNum(Dec(if k == DeviceBundle then 2 else 1)))
              && Field(v, "salt") == Some(JStr(c.base64(salt))) && Field(v, "nonce") == Some(JStr(c.base64(nonce)))
              && Field(v, "iterations") == Some(JNum(Dec(600_000)))
              && c.open(c.pbkdf2(passphrase, salt, 600_000), nonce, "", ct) == Some(plaintext)
  {
    hide Render, Parse, Metadata, Unpack, Pack, OneLine, HeaderLine, IsContainer, Field, Dec;
    var v := Metadata(VersionOf(k), c.base64(salt), c.base64(nonce), MIN_ITERATIONS);
    var ct := c.seal(c.pbkdf2(passphrase, salt, MIN_ITERATIONS), nonce, "", plaintext);
    RenderOneLine(v);
    HeaderOneLine(k);
    UnpackPack(HeaderLine(k), Render(v), ct);
    ContainerMeans(k, Export(c, k, plaintext, passphrase, salt, nonce), Render(v), ct);
    ParseRender(v);
    MetadataFields(VersionOf(k), c.base64(salt), c.base64(nonce), MIN_ITERATIONS);
    assert IsContainer(k, Export(c, k, plaintext, passphrase, salt, nonce), Render(v), ct) && Parse(Render(v)) == Some(v);
  }
}
