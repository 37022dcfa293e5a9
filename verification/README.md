# Verified model of sealedge

sealedge signs and encrypts archives on a device, links them into a per-device *chronicle*, has a
platform *witness* the tip of that chronicle in an append-only ledger, and checks all of it again
later. This project models those protocols and the containers beside them in Dafny, in the form the
code has (loops and objects where it has loops and objects), and proves what they promise over all
inputs, all runs and all interleavings.

| file | part of the system |
|---|---|
| `Text`, `Json`, `Primitives`, `Sorting`, `Streams` | byte codecs, the JSON text that is signed, cryptographic primitives by their laws, sorting, short reads |
| `Records`, `SignedTexts` | rotation records, witness requests and manifests, with their signing bytes |
| `Chain`, `Archive` | continuity chain, archive directory, writer and validator |
| `Wrap`, `WrapProofs`, `Contents` | `seal wrap` and `seal unwrap` |
| `Chronicle`, `ChronicleProofs` | `seal verify-chronicle` and what acceptance means |
| `Device`, `DeviceProofs`, `DiskProofs`, `Workspace` | every run of `wrap` and `rekey` in one working directory, and what it leaves on disk |
| `Ledger`, `Platform`, `PlatformProofs`, `Answers` | witness and revoke handlers over the three tables, and every run of them |
| `Interleaving` | the same handlers with the reads and writes of different requests interleaved |
| `Protocol`, `ProtocolProofs` | device and platform together |
| `Format`, `Envelope`, `EnvelopeProofs` | the chunked envelope |
| `RecordStream` | the command-line record stream |
| `KeyFiles` | the three passphrase-protected containers |
| `Sessions` | the session table and session key |
| `Satisfiable`, `Scenarios` | a model of the laws assumed of serialization, and the failing runs carried out in it |

## Reading guide

A byte is one `char`; a Rust string is the sequence of its UTF-8 bytes. Cryptography is a record of
functions (`Primitives.Crypto`) about which only correctness laws are assumed: a signature made with a
key verifies under it, decryption undoes encryption, both ends of a key agreement get one secret,
digests have 32 bytes. `Primitives.LawsAreSatisfiable` and the lemmas of `Satisfiable` show that all laws
assumed here have a model. Nothing assumes that
hashes are injective: results about binding end in a pair of inputs `x`, `y` with `Collides(c, x, y)`.
Serialization libraries are functions with round-trip laws (`Archive.ToolLaws`, `Envelope.CodecLaws`,
`RecordStream.CodecLaws`), except for the JSON text under signatures, which is modelled byte by byte.
A manifest comes back from its file with every number as JSON returns it (`Archive.ReadBack`): nothing is
assumed of that but that infinities and NaN, written as `null`, do not read. Where a number comes back
otherwise than it was signed, acceptance would need one signature to pass for two texts, and results that
leave this open end in `SignatureTransfers`.
Randomness, clocks, file contents and the order in which the database returns rows are parameters.
Integer widths are explicit (`U32`, `U64`), with the wrap-around of a release build.

The main results, by part:

* **Chronicle.** What any run of `wrap` and `rekey` leaves on disk is accepted by the verifier in any order,
  complete and with the state file equal to its report, exactly when the run was orderly: every wrap left a
  valid archive that reads back as signed, no counter wrapped, no two entries went into one directory and no
  failed wrap changed an archive (`DiskProofs.ProducedChronicleVerifies`, `DiskProofs.DirectoryVerifies`,
  `DiskProofs.AcceptedExactly`; from the calls alone: `DiskProofs.HarmlessIsOrderly`). Two accepted chronicles with one
  tip are the same or show a collision (`ChronicleProofs.SameTipSameChronicle`). A receipt turns undetectable
  truncation into an exact rule (`ChronicleProofs.ReceiptStopsTruncation`).
* **Platform.** Every run keeps every ledger ordered and append-only; recorded answers never change,
  revocation only tightens, receipts stay true (`PlatformProofs.RunKeeps` and the lemmas after it).
* **Together.** In every honest interleaving of commands, signing, late or repeated delivery of signed
  requests and requests of others, the platform's answer to each delivery is known exactly, and every
  receipt ever issued cross-checks against the final chronicle
  (`ProtocolProofs.HonestDeliveriesAnswered`, `ProtocolProofs.ReceiptsCrossCheck`).
* **Containers.** Wrap/unwrap, seal/unseal, encrypt/decrypt and export/import round trips with their
  exact conditions.
* **Written out.** For each main operation one lemma states its whole answer in terms of its input and the
  primitives alone, without the functions it is defined by: `SignedTexts`, `Contents`, `Answers`,
  `ChronicleProofs.AcceptedMeans`, `EnvelopeProofs.UnsealMeans`, `RecordStream.DecryptedMeans`,
  `KeyFiles.ImportMeans`.

Where the code does not do what it or its documentation says, the code is modelled, a lemma shows the
failing case and another gives the exact condition:

* `wrap --chunk-size 0` succeeds and leaves an archive no reader accepts, and so does wrapping into a
  directory with leftover chunk files (`WrapProofs.ZeroChunkSizeFails`; exactly when: `WrapProofs.WrapValidates`).
* `wrap --chunk-seconds inf` or `NaN` succeeds, advances the chronicle, and leaves a manifest nobody can read;
  a number that JSON reads back otherwise than it is printed leaves one whose signature does not fit it
  (`WrapProofs.NotFiniteDurationFails`, `DiskProofs.NotFiniteWrap`; exactly when: `WrapProofs.WrapValidates`,
  `WrapProofs.WrapThenUnwrap`, `DiskProofs.ProducedChronicleVerifies`).
* `wrap` writes into an existing output directory: a second archive replaces the first, one written beside a
  rotation entry is not seen, and one that fails late has already overwritten chunks
  (`DiskProofs.TwoWrapsOneOutput`, `DiskProofs.HiddenBehindRotation`, `DiskProofs.FailedWrapVerifies`; exactly when:
  `DiskProofs.ProducedChronicleVerifies`, `DiskProofs.FailedWrapExactly`).
* The key epoch wraps at 2^32 and the sequence at 2^64; the entry past either limit is refused by the
  verifier (`DeviceProofs.OverflowRefused`, `DeviceProofs.RunAccepted`, `Records.CreatedRotationVerifies`).
* A request signed for offline submission is refused as a rollback when a later one arrives first
  (`ProtocolProofs.OfflineRequestOvertaken`; exactly when: `ProtocolProofs.DeliveryAnswered`).
* A superseded key's ledger is documented as closed beyond the rotation. The lineage lookup returns one
  arbitrary row per old key, so a second rotation away from the key can reopen it
  (`PlatformProofs.SecondRotationReopens`; exactly when: `PlatformProofs.SupersededExactly`).
* The ledger row of a witness request is written before its attached rotation is checked, so a request
  refused for its rotation has still been recorded (`PlatformProofs.RefusedRotationRecorded`; exactly when:
  `PlatformProofs.RefusedYetRecorded`).
* The handler's comment says the primary key backs up monotonicity. Under races it prevents forks but
  not out-of-order sequences, and a receipt's predecessor can change (`Interleaving.RaceBreaksOrder`; exactly
  when: `Interleaving.OrderedExactly`). Concurrent revocations can move an instant later
  (`Interleaving.RevokeRaceLoosens`; exactly when: `Interleaving.TightensExactly`).
* Expiry cleanup shows when the clock steps back (`Sessions.ClockStepBackIsVisible`; exactly when:
  `Sessions.CleanupVisibleExactly`).
* Comments give the stream header 58 bytes; it has 66, the last two unused (`Format.HeaderRoundTrip`).
  Comments list the key-file metadata in another order than the sorted one written (`KeyFiles.Metadata`).

`Scenarios` carries out the failing runs of `wrap`, `rekey` and `witness` from an empty directory, with tools
that meet every law, so none of those lemmas is about a run that cannot happen.

## Model

| member | source | states |
|---|---|---|
| `Json.ReadEscaped` | crates/core/src/chronicle.rs:319-321 | Unescaping a quoted string gives back the original bytes whatever they are, quotes, backslashes and control characters included, and leaves the rest of the text alone |
| `Json.ShortEscapes` | crates/core/src/chronicle.rs:319-321 | The characters written with a short escape, and how |
| `Json.LongEscapes` | crates/core/src/chronicle.rs:319-321 | Control characters without a short escape are written with four lower-case hexadecimal digits |
| `Json.ParseRender` | crates/core/src/chronicle.rs:225-251 | The reader recovers every JSON value from the text written for it |
| `Json.RenderInjective` | crates/core/src/chronicle.rs:225-251 | No two values are written as one text |
| `Json.RenderOneLine` | crates/core/src/keywrap.rs:93-104 | Written JSON never contains a newline, so it occupies one line of a container |
| `Primitives.ArchiveIdInjective` | crates/core/src/chronicle.rs:37-39 | Equal chronicle ids come from equal digests |
| `Primitives.ArchiveIdShape` | crates/seal-protocols/src/archive/manifest.rs:744-978 | Every id made from a digest passes the manifest's format check for ids |
| `Records.DecodeRotationBytes` | crates/core/src/chronicle.rs:225-251 | Every signed field of a rotation is recovered from its signing bytes, for arbitrary strings |
| `Records.DecodeWitnessBytes` | crates/core/src/chronicle.rs:129-137 | Every signed field of a witness request is recovered from its signing bytes |
| `Records.RotationBytesInjective` | crates/core/src/chronicle.rs:225-251 | Equal rotation signing bytes mean equal signed fields |
| `Records.ManifestBytesInjective` | crates/seal-protocols/src/archive/manifest.rs:311-632 | Equal canonical manifest bytes mean manifests equal in everything but the signature, provided neither states epoch 0, which validation refuses |
| `Records.SigningBytesDisjoint` | crates/core/src/chronicle.rs:129-137 | No byte string is signed both as a manifest and as a rotation, as a manifest and as a witness request, or as a rotation and as a witness request |
| `SignedTexts.RotationText` | crates/core/src/chronicle.rs:225-251 | The signing bytes of a rotation as text: member names, nesting and order |
| `SignedTexts.WitnessText` | crates/core/src/chronicle.rs:129-137 | The signing bytes of a witness request as text |
| `SignedTexts.ManifestText` | crates/seal-protocols/src/archive/manifest.rs:311-632 | The canonical bytes of a manifest as text, with what is left out when absent and epoch 0 treated as absent |
| `SignedTexts.CreatedRotationText` | crates/core/src/chronicle.rs:264-300 | Both keys sign a text that states every argument of the rotation, the agreement key and the time included, and the epoch after the old one |
| `SignedTexts.CreatedWitnessText` | crates/core/src/chronicle.rs:140-163 | The device signs a text that states every argument of the request |
| `Records.CreatedRotationVerifies` | crates/core/src/chronicle.rs:264-314 | A created rotation passes verification if and only if the old epoch can be incremented in 32 bits |
| `Records.CreatedWitnessVerifies` | crates/core/src/chronicle.rs:140-163 | A created request passes verification, with or without a rotation attached after signing |
| `Chain.ValidateChain` | crates/core/src/chain.rs:49-78 | Accepts exactly the lists whose indices count up and whose continuity values are the running fold from genesis; a refusal names the first segment at fault |
| `Chain.ContinuityBinds` | crates/core/src/chain.rs:28-38 | Two folds with one value folded the same hashes, or a collision is exhibited, the genesis seed included |
| `Chain.AcceptedChainsBind` | crates/core/src/chain.rs:49-78 | Two accepted non-empty lists that end in one continuity value are identical, or a collision is exhibited |
| `Streams.ReadExactOrEof` | crates/seal-cli/src/main.rs:491-503 | For every pattern of short reads: the next `size` bytes, or all that is left, and the position moves by exactly that |
| `Streams.SplitPieces` | crates/seal-cli/src/main.rs:942-987 | The fixed-size split loses nothing, no piece is empty or oversized, and all but the last are full |
| `Streams.SplitCount` | crates/core/src/envelope.rs:154-154 | The number of pieces is the length divided by the size, rounded up |
| `Archive.ReadCapped` | crates/core/src/archive.rs:192-204 | A file is returned whole when within the cap and refused otherwise, although only one byte past the cap is read |
| `Archive.ReadManifest` | crates/core/src/archive.rs:251-267 | Returned exactly when both files are there and within their caps, the manifest decodes, and its embedded signature is absent or equal to the detached one |
| `Archive.StreamHashChunk` | crates/core/src/archive.rs:219-241 | Hashing through a fixed buffer with short reads is hashing the whole file, and a file above the cap is refused |
| `Archive.ReferencesAll` | crates/core/src/archive.rs:332-348 | Accepts exactly when every `.bin` file on disk is named by some segment |
| `Archive.CheckSegment` | crates/core/src/archive.rs:358-402 | One segment passes exactly when its file has the expected name, exists, is within the cap and has the recorded hash, and its continuity value is 32 bytes of hexadecimal; then its chain entry is returned |
| `Archive.HashSegments` | crates/core/src/archive.rs:355-402 | All segments pass exactly when each does at its own index, and the list handed to the chain check has them in order |
| `Archive.ValidateArchive` | crates/core/src/archive.rs:328-408 | The streaming validator accepts exactly the directories that meet the declarative description of a valid archive |
| `Archive.ArchiveWriter.constructor` | crates/core/src/archive.rs:67-79 | Nothing is removed from an existing directory |
| `Archive.ArchiveWriter.PushChunk` | crates/core/src/archive.rs:85-102 | Stores the bytes under the next chunk name and reports the hash and the continuity value of everything pushed so far; other files stay |
| `Archive.ArchiveWriter.Finalize` | crates/core/src/archive.rs:110-138 | Writes manifest and signature exactly when the segment count matches and the encoding is within the reader's cap, otherwise leaves the directory unchanged |
| `Archive.WrittenAt` | crates/core/src/archive.rs:85-102 | Up to 2^32 chunks, no chunk file is overwritten by a later chunk |
| `Archive.WrittenElsewhere` | crates/core/src/archive.rs:67-102 | The files present afterwards are those that were there and the chunk files, and the former keep their content |
| `Text.ChunkNameShape` | crates/core/src/archive.rs:85-102 | A chunk file is named by its number in decimal, padded to five digits and no further |
| `Wrap.WrapOne` | crates/seal-cli/src/main.rs:952-986 | One turn of the loop stores the next chunk and extends the segment list consistently with it |
| `Wrap.WrapChunks` | crates/seal-cli/src/main.rs:942-987 | Whatever the pattern of short reads, the stored chunks are those of the simple fixed-size split, with matching segments, and the loop terminates |
| `Wrap.RecipientKeys` | crates/seal-cli/src/main.rs:1142-1149 | Own key first, every listed recipient, nobody else, and nobody twice |
| `Wrap.SealedForAll` | crates/seal-cli/src/main.rs:1151-1163 | On success there is one entry per recipient key, in order, each the content key wrapped to that key |
| `Wrap.WrapArchive` | crates/seal-cli/src/main.rs:787-1257 | The streaming command leaves in its directory exactly the archive of the whole-payload description; failing before the first chunk it leaves the directory alone, failing later it leaves the chunks written over what was there |
| `Wrap.Unwrap` | crates/seal-cli/src/main.rs:1476-1659 | Output only from an archive that is signed and validates; then it is all chunks decrypted and concatenated, or nothing |
| `WrapProofs.WrappedShape` | crates/seal-cli/src/main.rs:1180-1222 | A successful wrap reads back to the manifest that was signed with each number as JSON returns it, or not at all if one does not read, and its chunk count fits 32 bits because its manifest is within the size cap |
| `WrapProofs.WrappedReadBack` | crates/core/src/archive.rs:110-138 | The manifest of a wrap reads back at all exactly when the duration and the metadata of the call do, and unchanged exactly when both read back as they are printed under the signature |
| `WrapProofs.ReadBackText` | crates/seal-protocols/src/archive/manifest.rs:311-632 | A manifest that reads back changed has another signed text than the one that was signed |
| `WrapProofs.WrappedIsBacked` | crates/seal-cli/src/main.rs:942-987 | The chunk files of a successful wrap are the ones its segments describe, whatever else lies in the directory |
| `WrapProofs.EncryptionBlock` | crates/seal-cli/src/main.rs:1138-1173 | The recipients of the finished manifest are bound to the digest of that manifest without its encryption block |
| `WrapProofs.StoredWithinCap` | crates/core/src/archive.rs:25-38 | No stored chunk, nonce and tag included, exceeds what readers accept |
| `WrapProofs.WrapValidates` | crates/core/src/archive.rs:328-408 | A wrapped archive passes validation if and only if the chunk size was positive, no foreign `.bin` file was left in the directory, the duration and the metadata read back from JSON, and the caller's fields and the metadata as read are valid, all of which can be checked before the call |
| `WrapProofs.ZeroChunkSizeFails` | crates/seal-cli/src/main.rs:791-800 | A chunk size of 0 is accepted and yields an archive that does not validate |
| `WrapProofs.NotFiniteDurationFails` | crates/seal-cli/src/main.rs:905-983 | After a successful wrap with an infinite or NaN chunk duration the manifest cannot be read and the archive does not validate |
| `Contents.UnreadableNumber` | crates/core/src/archive.rs:250-255 | One infinite or NaN duration anywhere in a manifest and its file cannot be read |
| `WrapProofs.WrappedIsTrusted` | crates/seal-cli/src/main.rs:1476-1545 | For a call whose numbers read back as printed, the checks of `unwrap` come down to validation alone; otherwise they pass only if the signature also fits the text as read |
| `WrapProofs.ListedReaderHasAccess` | crates/seal-cli/src/main.rs:1546-1581 | The device and every listed recipient obtain the content key the chunks were encrypted under |
| `WrapProofs.UnlistedReaderHasNone` | crates/seal-cli/src/main.rs:1546-1555 | Any other key finds no entry in the encryption block |
| `WrapProofs.RecoverPieces` | crates/seal-cli/src/main.rs:1597-1644 | After n files the recovered bytes are the first n pieces of the payload |
| `WrapProofs.UnwrapRecovers` | crates/seal-cli/src/main.rs:1546-1651 | From a wrapped archive whose numbers read back as printed, the holder of the device's own or a listed agreement key recovers exactly the payload, and nobody else anything |
| `WrapProofs.WrapThenUnwrap` | crates/seal-cli/src/main.rs:787-1257 | The two commands end to end into a fresh directory, for any reader: when the wrap succeeds with valid fields whose numbers read back as printed, the payload comes back exactly if the reader's agreement key is the device's own or a listed one; in any other case nothing does, unless one signature passes for two texts |
| `Contents.ChunkOnDisk` | crates/seal-cli/src/main.rs:952-986 | After a wrap the file of chunk i is piece i, or with a content key the nonce drawn for chunk i followed by a ciphertext that opens to piece i under that key and that nonce, bound to signer, profile and start |
| `Contents.NoncesOnDisk` | crates/seal-cli/src/main.rs:954-965 | Distinct draws put distinct nonces on disk |
| `Contents.ManifestSays` | crates/seal-cli/src/main.rs:1091-1133 | Everything the signed manifest says, told from the call and the resolved position |
| `Contents.SegmentSays` | crates/seal-cli/src/main.rs:966-986 | Segment i states name, digest, start, duration and folded digests of chunk file i |
| `Contents.RecipientsSay` | crates/seal-cli/src/main.rs:1138-1173 | The encryption block has the device's own key first, every listed one, nobody else and nobody twice, each with the content key sealed to it under its own randomness and bound to the manifest |
| `Contents.WrapSucceeds` | crates/seal-cli/src/main.rs:787-1222 | A wrap succeeds exactly for a non-empty payload, a chunk size up to 256 MiB, recipients only with encryption and with well-formed keys, and a manifest of at most 8 MiB |
| `Contents.ValidExactly` | crates/core/src/archive.rs:328-408 | A directory validates exactly when both metadata files can be read within their limits, the manifest says what each check asks for, and the chunk files are those of its segments with their digests and folds |
| `Contents.UnwrapMeans` | crates/seal-cli/src/main.rs:1476-1659 | Output exactly from a valid archive of the supported version signed by its own key and by the expected signer if one is named, and then the files themselves, or with an encryption block what they open to under the 32-byte key in the reader's own entry |
| `Contents.NotARecipient` | crates/seal-cli/src/main.rs:1546-1555 | With an encryption block, a key that is not a recipient's gets nothing |
| `Chronicle.SortBySeq` | crates/seal-cli/src/main.rs:1971-1971 | A sorted rearrangement of the entries |
| `Chronicle.ReadEntries` | crates/seal-cli/src/main.rs:1928-1968 | Of the entries read, passes exactly those with the supported version and a position |
| `Chronicle.CheckStructure` | crates/seal-cli/src/main.rs:1973-2029 | Passes exactly when positions count up from 0, the first entry is a content archive without predecessor, and each later entry names its predecessor's id |
| `Chronicle.WalkEntryMeans` | crates/seal-cli/src/main.rs:2031-2138 | One step of the walk succeeds exactly when the entry is authorized by the key and epoch in force, and moves both on as the history prescribes |
| `Chronicle.Walk` | crates/seal-cli/src/main.rs:2031-2138 | The walk succeeds exactly when every entry is authorized, and returns the final signer, the epoch, and the signer after each entry |
| `Chronicle.InForceIs` | crates/seal-cli/src/main.rs:2035-2138 | After each entry exactly one key is in force, and it is the one the walk carries |
| `Chronicle.MeetsReceipt` | crates/seal-cli/src/main.rs:2148-2200 | The receipt is met exactly when the chronicle reaches the witnessed position, under the witnessed key and with the witnessed entry |
| `Chronicle.VerifyChronicle` | crates/seal-cli/src/main.rs:1894-2245 | Accepts exactly the entries that in sorted order form a chronicle of the genesis key and, with a receipt, reach its position with its id there and its key installed by the latest rotation up to it, or the genesis key without one; the report is that of the sorted log |
| `Chronicle.VerifyPaths` | crates/seal-cli/src/main.rs:1894-2245 | From entry directories: accepts exactly when every one can be read, a rotation before an archive in the same place, and the entries read pass; the report is that of what was read |
| `Chronicle.ScanDirectory` | crates/seal-cli/src/main.rs:1865-1883 | A plain directory stands for each entry directory among its children, once |
| `Chronicle.VerifyDirectory` | crates/seal-cli/src/main.rs:1865-2245 | On a plain directory: accepts exactly when every entry directory in it can be read and the entries read pass |
| `ChronicleProofs.AnyOrder` | crates/seal-cli/src/main.rs:1971-1987 | Sorting any permutation of a numbered log restores the log |
| `ChronicleProofs.AcceptsSomeOrder` | crates/seal-cli/src/main.rs:1971-2200 | A collection of entries is accepted if and only if some arrangement of it is a chronicle |
| `ChronicleProofs.PrefixAccepted` | crates/seal-cli/src/main.rs:2031-2146 | Without a receipt every non-empty prefix of an accepted chronicle is accepted |
| `ChronicleProofs.ReceiptStopsTruncation` | crates/seal-cli/src/main.rs:2148-2200 | With a receipt the full chain satisfies, a prefix is accepted if and only if it reaches past the witnessed position |
| `ChronicleProofs.OtherKeyRefused` | crates/seal-cli/src/main.rs:2171-2185 | A receipt that passes is refused when only its key is replaced by another |
| `ChronicleProofs.IdBinds` | crates/core/src/chronicle.rs:256-258 | Two entries with one id agree in everything signed, or their canonical bytes collide |
| `ChronicleProofs.HistoriesBind` | crates/seal-cli/src/main.rs:2006-2029 | From two entries with one id, positions and all earlier entries agree in everything signed, or a collision is exhibited |
| `ChronicleProofs.ContentBinds` | crates/core/src/archive.rs:355-405 | Entries that agree in what is signed also agree in their chunk files, or two chunks collide |
| `ChronicleProofs.SharedHistory` | crates/seal-cli/src/main.rs:1973-2138 | Accepted chronicles that share an id anywhere share position, genesis key and the whole history up to it, chunks included, or exhibit a collision |
| `ChronicleProofs.SameTipSameChronicle` | crates/seal-cli/src/main.rs:1973-2146 | Two accepted chronicles with one tip have one length and the same entries, or exhibit a collision |
| `ChronicleProofs.ReceiptFixesHistory` | crates/seal-cli/src/main.rs:2148-2200 | Two chronicles accepted with one receipt agree up to the witnessed entry, or exhibit a collision |
| `Chronicle.KeyOfLatestRotation` | crates/seal-cli/src/main.rs:2035-2138 | The key in force is the new key of the latest rotation before |
| `ChronicleProofs.RotationsCounted` | crates/seal-cli/src/main.rs:2035-2138 | The epoch the walk carries is the number of rotation positions passed |
| `ChronicleProofs.RotationSigners` | crates/seal-cli/src/main.rs:2035-2138 | Every rotation in an accepted chronicle is signed by the key in force and by the key it installs, and its two epochs count the rotations before and including it |
| `ChronicleProofs.ArchiveSigner` | crates/seal-cli/src/main.rs:2035-2138 | In an accepted chronicle each archive states an epoch equal to the number of earlier rotations and carries a verifying signature of the latest rotation's new key, or of the genesis key if there was none |
| `ChronicleProofs.AcceptedMeans` | crates/seal-cli/src/main.rs:1973-2138 | Acceptance in full: what version, position and predecessor each entry states, which key has to have signed it, and the epochs it states |
| `ChronicleProofs.ReportSays` | crates/seal-cli/src/main.rs:2201-2245 | The report gives the numbers of entries and rotations, place and id of the last entry, and the identity in force after it |
| `ChronicleProofs.ReadAtMeans` | crates/seal-cli/src/main.rs:1885-1951 | A directory is read as a rotation exactly if it has a well-formed `rotation.json`, and as an archive only without one |
| `DeviceProofs.LinkContinues` | crates/seal-cli/src/main.rs:1773-1843 | What is resolved from a consistent state file is the next position, the tip's id and the epoch, for the key in force |
| `DeviceProofs.WrapOutcomeMeans` | crates/seal-cli/src/main.rs:1773-1843 | A wrap completes an archive exactly for a `.seal` output, the identity the state file names or none yet, and arguments that wrap, at the position after the last entry |
| `DeviceProofs.WrapFails` | crates/seal-cli/src/main.rs:787-1133 | A failed wrap leaves state, history and other directories alone, and its output untouched or with the chunks written over what was there |
| `DeviceProofs.WrappedEntry` | crates/seal-cli/src/main.rs:1091-1133 | The manifest signed for a chronicle position has the version, position, predecessor, key, epoch and signature the verifier asks for |
| `DeviceProofs.RunKeeps` | crates/seal-cli/src/main.rs:1773-1843 | After any sequence of commands, failed ones included, every entry was made from the history before it and the state file describes the head |
| `DeviceProofs.ContentsAreCalls` | crates/seal-cli/src/main.rs:1117-1240 | All archives of a run were valid when written and read back as signed if and only if every wrap that succeeded was called with valid fields, numbers that read back as printed, a positive chunk size and no leftover chunk files |
| `DeviceProofs.OverflowRefused` | crates/core/src/chronicle.rs:264-314 | A run's log that is accepted has wrapped neither counter |
| `DeviceProofs.RunAccepted` | crates/seal-cli/src/main.rs:1971-2146 | The entries of any run, as they were written, read back as signed and are accepted for their genesis key if and only if every wrap that succeeded met its call conditions and neither counter wrapped |
| `DeviceProofs.StateIsReport` | crates/seal-cli/src/main.rs:1226-1240 | Within the counters' width the state file holds the verifier's final signer, sequence, tip and epoch |
| `DiskProofs.RunKeepsDisk` | crates/seal-cli/src/main.rs:787-1257 | After any run, every directory an entry was written to still holds its rotation, or its manifest unless a later archive went there, and its chunk files were only added to or overwritten |
| `DiskProofs.ContentNow` | crates/core/src/archive.rs:355-405 | An archive is valid now exactly when it was valid when written and its `.bin` files are the same with the same digests |
| `DiskProofs.ProducedChronicleVerifies` | crates/seal-cli/src/main.rs:1894-2146 | The directories of a run, in any order, are accepted and hold every entry written if the run was orderly, and only then unless one signature passes for two texts. Orderly: valid wraps whose numbers read back as printed, no counter wrapped, no two entries in one directory, and no archive changed by a wrap that failed late; then the state file equals the report |
| `DiskProofs.AcceptedIsLegible` | crates/seal-cli/src/main.rs:2031-2138 | Every archive in an accepted chronicle of the device was read back as signed, or its signature passes for two texts |
| `DiskProofs.RunEntries` | crates/seal-cli/src/main.rs:1858-1883 | In a working directory that held no entry at first, the entry directories after any run are exactly those the device wrote entries to |
| `DiskProofs.DirectoryVerifies` | crates/seal-cli/src/main.rs:1865-2146 | Then scanning that directory finds the entries, each once, and is accepted under the same exact condition |
| `DiskProofs.AcceptedExactly` | crates/seal-cli/src/main.rs:1894-2146 | Unless the newest archive was written beside a rotation entry, acceptance alone implies that nothing is missing and is equivalent to that |
| `DiskProofs.OneDirectoryTwice` | crates/core/src/archive.rs:67-79 | A run that wrote two entries into one directory is refused |
| `DiskProofs.TwoWrapsOneOutput` | crates/core/src/archive.rs:67-79 | Two successful wraps into one output: the state file is there and the directory is refused |
| `DiskProofs.UnreadableEntry` | crates/seal-cli/src/main.rs:1948-1951 | While a manifest that does not read back is the newest one in its directory, no listing of the device's directories is accepted for any genesis key or receipt |
| `DiskProofs.NotFiniteWrap` | crates/seal-cli/src/main.rs:905-983 | A successful wrap with an infinite or NaN duration, after any run, has advanced the state file and no chronicle with it is accepted |
| `DiskProofs.HiddenBehindRotation` | crates/seal-cli/src/main.rs:1929-1946 | An archive wrapped into a rotation entry's directory is not seen: the chronicle still verifies as before while the state file has moved on |
| `DiskProofs.FailedWrapExactly` | crates/seal-cli/src/main.rs:942-1133 | A wrap that fails after its chunks leaves a valid archive in its directory valid exactly when it wrote no more chunks than that has, each with the digest of the file it overwrote |
| `DiskProofs.FailedWrapVerifies` | crates/seal-cli/src/main.rs:942-1133 | After an orderly run, such a failure leaves a chronicle that verifies exactly in that case |
| `DiskProofs.HarmlessUnspoiled` | crates/seal-cli/src/main.rs:942-1133 | Over any run without two entries in one directory, archives keep their files if every wrap that failed late in the directory of one was harmless when called |
| `DiskProofs.HarmlessIsOrderly` | crates/seal-cli/src/main.rs:787-1257 | So a run is orderly by conditions on its calls alone |
| `Workspace.WorkingDirectory.constructor` | crates/core/src/chronicle.rs:48-89 | A new device has neither state nor entries, and its invariant holds among whatever lies in the directory |
| `Workspace.WorkingDirectory.Wrap` | crates/seal-cli/src/main.rs:787-1257 | Keeps the invariant between state file, history and directories; success adds one archive signed by the identity in force and continuing its tip, failure changes neither state nor history, and no other directory is touched |
| `Workspace.WorkingDirectory.Rekey` | crates/seal-cli/src/main.rs:2339-2428 | Keeps the invariant; succeeds exactly for the identity in force, a different new key and a new path, and then a rotation between the two keys continues the tip and the new key signs next; otherwise nothing changes |
| `Ledger.Find` | crates/platform/src/witness.rs:57-57 | The row found has the sequence asked for, and a miss means there is none |
| `Ledger.MaxSequence` | crates/platform/src/witness.rs:69-69 | The greatest sequence present, absent only for an empty ledger |
| `Ledger.PrevEntry` | crates/platform/src/witness.rs:82-88 | A row strictly below the sequence that no other row below it exceeds, absent only when there is none |
| `Ledger.DecideOrderFree` | crates/platform/src/witness.rs:56-88 | The decision is the same for every order in which the rows are loaded |
| `Ledger.PrevOfRow` | crates/platform/src/witness.rs:82-88 | In an increasing ledger the predecessor of a row is the row recorded just before it |
| `Ledger.PrevOfNext` | crates/platform/src/witness.rs:82-88 | The predecessor of a new highest sequence is the last row |
| `Ledger.DecideMeans` | crates/platform/src/witness.rs:56-78 | Record exactly for a sequence above every row, replay exactly for a recorded pair, fork exactly for a recorded sequence with another tip, rollback exactly below the highest row and at none; fork and rollback report what the ledger holds |
| `PlatformProofs.LoadDecides` | crates/platform/src/database/queries.rs:158-178 | Deciding on any load of an ordered ledger is deciding on the ledger itself |
| `PlatformProofs.WitnessEffect` | crates/platform/src/http/handlers.rs:680-796 | All a request can change: lineage grows, and at most one row is added, above every row of its key, for a key not revoked and not beyond the rotation that was looked up |
| `Answers.UnsignedRefused` | crates/platform/src/http/handlers.rs:680-690 | A request is refused for its signature, with nothing written, exactly when that does not verify under the key it names |
| `Answers.RowsAreAskedFor` | crates/platform/src/http/handlers.rs:680-796 | Over every run each row added was asked for by a request of the run whose signature verifies under the row's key |
| `Answers.WitnessAnswer` | crates/platform/src/http/handlers.rs:680-870 | The whole answer told from request and tables: each refusal exactly when its condition holds, in order, the row and lineage written, and a grant otherwise |
| `Answers.ReceiptSays` | crates/platform/src/witness.rs:118-138 | A receipt repeats key, sequence and tip of its request, says whether the key is registered, and carries the time of the first recording |
| `Answers.RegisterMeans` | crates/platform/src/http/handlers.rs:550-598 | Registering makes a key known and active and touches no other |
| `Answers.FloorExactly` | crates/platform/src/revocation.rs:50-110 | An applied revocation leaves exactly the epochs from its floor on allowed, or those allowed before without one, and touches no other key |
| `Answers.RevokeRefused` | crates/platform/src/http/handlers.rs:600-660 | A revocation that is not applied, or of an unknown key, changes nothing |
| `PlatformProofs.WitnessLineage` | crates/platform/src/http/handlers.rs:798-855 | The only lineage a request can add is that of its attached rotation, verified and bound to it |
| `PlatformProofs.LineageJustified` | crates/platform/src/revocation.rs:155-185 | A lineage row is only recorded for a rotation both keys signed, that is the witnessed tip and installs the requester at the next epoch, that continues the old key's ledger where its predecessor is witnessed, and for a new key without lineage |
| `PlatformProofs.DecideRevokeExactly` | crates/platform/src/revocation.rs:50-96 | A request is applied if and only if its instant parses and is not later than the current one and its floor is not lower; what was asked for then holds and what was not asked for stays |
| `PlatformProofs.DecideRevokeTightens` | crates/platform/src/revocation.rs:50-96 | An applied revocation is set, never later than before, never cleared, with a floor never lower |
| `PlatformProofs.StepKeeps` | crates/platform/src/http/handlers.rs:600-870 | Every request keeps the ledgers ordered, only appends rows and lineage, and only tightens revocation |
| `PlatformProofs.RunKeeps` | crates/platform/src/http/handlers.rs:600-870 | So does every run of requests |
| `PlatformProofs.LedgerLater` | crates/platform/src/database/queries.rs:183-205 | A key's ledger is at all times strictly increasing and a prefix of its later self |
| `PlatformProofs.RecordedForever` | crates/platform/src/witness.rs:56-78 | A recorded pair is a replay at every later time with the same entry and predecessor and passes every gate, revoked or superseded; any other tip there is a fork |
| `PlatformProofs.SkippedForever` | crates/platform/src/witness.rs:69-73 | A sequence passed over is a rollback at every later time and never gets recorded |
| `PlatformProofs.GrantedMeans` | crates/platform/src/http/handlers.rs:754-870 | A granted request recorded its pair now or replays it, and its receipt is built from that decision |
| `PlatformProofs.ReceiptLinks` | crates/platform/src/witness.rs:118-138 | Every receipt describes an entry of its key's ledger and the entry recorded immediately before it |
| `PlatformProofs.ReceiptsStayTrue` | crates/platform/src/witness.rs:118-138 | It describes the same two entries at every later time |
| `PlatformProofs.ReplaySameReceipt` | crates/platform/src/witness.rs:118-138 | A receipt granted again at any later time for the same key and sequence has the same tip, timestamp and predecessor fields |
| `PlatformProofs.RefusedYetRecorded` | crates/platform/src/http/handlers.rs:775-855 | A refused request has nevertheless been recorded if and only if it was admitted as new and carries a rotation that does not pass the two checks on the tables before the call |
| `PlatformProofs.RefusedRotationRecorded` | crates/platform/src/http/handlers.rs:775-855 | From empty tables, a request refused for its rotation whose row is in the ledger |
| `PlatformProofs.RevocationOnlyTightens` | crates/platform/src/revocation.rs:50-110 | Over every run a revoked key stays revoked from an instant no later, and a refused epoch stays refused |
| `PlatformProofs.RevokedGainsNothing` | crates/platform/src/revocation.rs:115-117 | Over every run a revoked key's ledger does not change |
| `PlatformProofs.SupersededGainsNothingAbove` | crates/platform/src/revocation.rs:126-135 | A key superseded at r, and by no later rotation, gains no entry above r over any run |
| `PlatformProofs.SupersededExactly` | crates/platform/src/database/queries.rs:306-316 | A key superseded at r is closed above r if and only if it is revoked or its ledger has already reached every later rotation away from it |
| `PlatformProofs.ReopeningCall` | crates/platform/src/database/queries.rs:306-316 | Otherwise a request for the later rotation's sequence is recorded |
| `PlatformProofs.RotationCallLands` | crates/platform/src/http/handlers.rs:798-855 | A rotation witnessed under its unseen new key adds that key's first row and the lineage row |
| `PlatformProofs.SecondRotationReopens` | crates/platform/migrations/004_revocation.sql:22-31 | A run from empty tables after which a key superseded at 3 can be recorded above 3 again |
| `Interleaving.UninterruptedIsSequential` | crates/platform/src/http/handlers.rs:680-870 | A request that is not interrupted between its reads and its writes is the sequential handler |
| `Interleaving.UninterruptedRevoke` | crates/platform/src/http/handlers.rs:600-660 | A revocation not interrupted between its read and its write is the sequential handler |
| `Interleaving.InterleavingKeepsKey` | crates/platform/migrations/003_witness_log.sql:12-20 | However reads and writes interleave, rows are only appended and no key has two rows at one sequence |
| `Interleaving.RecordedUnderRaces` | crates/platform/src/witness.rs:56-78 | Under races too, a recorded pair replays forever and another tip at its sequence is a fork |
| `Interleaving.RowsAskedForUnderRaces` | crates/platform/src/http/handlers.rs:680-796 | Under every interleaving, too, each row written was asked for by a request signed with the row's key |
| `Interleaving.OrderedExactly` | crates/platform/src/http/handlers.rs:703-795 | Over any interleaving from an ordered ledger, it stays ordered if and only if every row was written above all rows of its key written since its own request loaded the ledger |
| `Interleaving.OneAtATimeOrdered` | crates/platform/src/http/handlers.rs:703-795 | One witness request per key at a time is enough for that |
| `Interleaving.RaceBreaksOrder` | crates/platform/src/http/handlers.rs:680-795 | Two concurrent requests of one key that leave a ledger out of order, after which the receipt of the first names a predecessor it did not name when granted |
| `Interleaving.RevokedUnderRaces` | crates/platform/src/revocation.rs:115-117 | After a revocation, only witness requests admitted before it can still add an entry, however the reads and writes of witness and revoke requests interleave |
| `Interleaving.SupersededUnderRaces` | crates/platform/src/revocation.rs:126-135 | Under races, a key superseded at r, and by no later rotation, gains only entries at or below r and those of requests already admitted |
| `Interleaving.RevokeRaceLoosens` | crates/platform/src/http/handlers.rs:600-660 | Two concurrent first revocations of a key after which its instant has moved later |
| `Interleaving.TightensExactly` | crates/platform/src/http/handlers.rs:600-660 | Over any interleaving, no action loosens a revocation if and only if every revocation written tightens all rows written for its key since it loaded that key's row; then the final rows are no looser than the first |
| `Interleaving.OneRevokeTightens` | crates/platform/src/http/handlers.rs:600-660 | One revocation per key at a time is enough for that, whatever else interleaves |
| `ProtocolProofs.CommandAppends` | crates/seal-cli/src/main.rs:1117-1240 | A command either changes nothing or appends one entry, under the wrapping key or installing the new key |
| `ProtocolProofs.TipRequestShape` | crates/seal-cli/src/main.rs:2430-2475 | What the device signs is a verifying request for the tip, its position and the key in force; an attached rotation is the tip itself |
| `ProtocolProofs.TipRequestMeans` | crates/seal-cli/src/main.rs:2430-2475 | A request is signed exactly with a state file, its identity's key and, to attach a rotation, that rotation as the newest entry |
| `ProtocolProofs.DeliverMeans` | crates/seal-cli/src/main.rs:2480-2519 | A delivery hands the platform the signed request with the rotation sent along, and a receipt is kept exactly when one is granted |
| `ProtocolProofs.RotationPassesAt` | crates/platform/src/revocation.rs:155-185 | A rotation that verifies and says what the device's own says passes the platform's checks beside a request for the same entry |
| `ProtocolProofs.OwnRotationPlace` | crates/platform/src/revocation.rs:155-185 | As long as nobody else signs with the device's keys, a rotation from or to one of them that passes beside a request says what the entry asked about says |
| `ProtocolProofs.NeverSuperseded` | crates/platform/src/revocation.rs:126-135 | No request of the device lies beyond a rotation away from its key |
| `ProtocolProofs.DeliveryAnswered` | crates/platform/src/http/handlers.rs:680-870 | A request signed at any time, delivered by anybody, at once, late or again, with any rotation attached, is a rollback exactly when its key's ledger has a row above it and none at it, revoked exactly when new under a revoked key, refused for its rotation exactly when that does not verify or says something else than its own entry, and granted otherwise |
| `ProtocolProofs.MoveKeeps` | crates/seal-cli/src/main.rs:2430-2519 | Every command, signature, delivery or request of others keeps device and platform in step: each ledger row, lineage row, signed request and receipt is true of the device's log |
| `ProtocolProofs.HonestRunInStep` | crates/seal-cli/src/main.rs:2430-2519 | So does every honest run |
| `ProtocolProofs.HonestDeliveriesAnswered` | crates/platform/src/witness.rs:56-88 | In every honest run every delivery gets that answer; a request for the current tip is never a rollback, and with no rotation or a fitting one it is granted unless its key is revoked |
| `ProtocolProofs.OfflineRequestOvertaken` | crates/seal-cli/src/main.rs:2505-2517 | The run in which a request signed for offline submission arrives after a later one and is refused as a rollback |
| `ProtocolProofs.DeviceRuns` | crates/seal-cli/src/main.rs:1117-1240 | The device's part of a joint run is the run of its own commands, whatever the platform did in between |
| `ProtocolProofs.ReceiptsCrossCheck` | crates/seal-cli/src/main.rs:2148-2200 | Every receipt issued at any time in an honest run, for a request delivered whenever, passes the cross-check of the final chronicle read back from disk in any order, when the device's own commands were orderly |
| `Scenarios.TwoWrapsHappen` | crates/core/src/archive.rs:67-79 | From an empty directory, two wraps into one output both succeed and what is left is refused |
| `Scenarios.NotFiniteHappens` | crates/seal-cli/src/main.rs:905-983 | From an empty directory, a wrap with the duration `inf` succeeds and what is left is refused for every genesis key |
| `Scenarios.FailedWrapHappens` | crates/seal-cli/src/main.rs:942-1133 | After an orderly first wrap, one by another signer into the same directory fails, changes neither state nor history, and what was accepted before is refused |
| `Scenarios.HiddenHappens` | crates/seal-cli/src/main.rs:1929-1946 | After an orderly wrap and rotation, the new key's archive in the directory of the rotation is the third entry written, and the disk is accepted with two |
| `Scenarios.OfflineHappens` | crates/seal-cli/src/main.rs:2505-2517 | An honest run from the start after which a request the device signed is refused as a rollback |
| `Sorting.SortedIsUnique` | crates/seal-cli/src/main.rs:1971-1971 | Distinct keys leave only one sorted arrangement |
| `Sorting.SortedKeysAreIota` | crates/core/src/envelope.rs:452-468 | Sorted by key, the keys are 0 to n - 1 if and only if they were a permutation of those |
| `Format.AadInjective` | crates/core/src/format.rs:304-323 | The associated data determines header hash, sequence, nonce, manifest hash and chunk length |
| `Format.HeaderSlices` | crates/core/src/format.rs:160-173 | Each header field occupies its fixed byte range of the 66 |
| `Format.HeaderRoundTrip` | crates/core/src/format.rs:160-206 | A written header reads back unchanged if its algorithm numbers are known ones and is refused otherwise |
| `Envelope.Seal` | crates/core/src/envelope.rs:141-203 | Succeeds exactly when the shared secret is usable and the payload needs at most 2^24 chunks; the envelope then holds the encryption of every piece in order |
| `Envelope.VerifyChunkSequence` | crates/core/src/envelope.rs:452-468 | Accepts exactly when the count is right and the numbers are a permutation of 0 to n - 1 |
| `Envelope.Verify` | crates/core/src/envelope.rs:208-231 | Accepts exactly version 2 with every chunk signed under the envelope's key and the numbers a permutation |
| `Envelope.Unseal` | crates/core/src/envelope.rs:234-284 | Returns the chunks decrypted in order of their numbers when the envelope verifies and the size matches, otherwise fails |
| `EnvelopeProofs.NoncesDistinct` | crates/core/src/envelope.rs:342-356 | Nonces differ whenever the chunk index or the last-chunk flag does |
| `EnvelopeProofs.ChunkOpens` | crates/core/src/envelope.rs:475-532 | A created chunk verifies under the sealer's key and decrypts to its piece |
| `EnvelopeProofs.SealedCounts` | crates/core/src/envelope.rs:154-190 | On success all nonces differ, there are at most 2^24 chunks and the 32-bit count is the true one |
| `EnvelopeProofs.SealedVerifies` | crates/core/src/envelope.rs:208-231 | What was sealed verifies |
| `EnvelopeProofs.VerifiedMeans` | crates/core/src/envelope.rs:208-231 | Version 2, one chunk for each number, and every chunk's signed manifest verifies under the envelope's own key |
| `EnvelopeProofs.ForeignSignatureRefused` | crates/core/src/envelope.rs:437-450 | One chunk not signed under the envelope's key, whatever key lies beside the signature, and `verify` refuses and `unseal` returns nothing |
| `EnvelopeProofs.UnsealMeans` | crates/core/src/envelope.rs:234-284 | From a verified envelope `unseal` returns a payload exactly when the chunks in order of their numbers open to it under the agreed key, nonces and bindings, with the promised size |
| `EnvelopeProofs.EnvelopeSays` | crates/core/src/envelope.rs:141-203 | Everything a sealed envelope says outside its chunks |
| `EnvelopeProofs.ChunkSays` | crates/core/src/envelope.rs:475-532 | Chunk i carries its number, its nonce, a manifest signed by the sealer that states number, size and time, and a ciphertext that opens to piece i |
| `EnvelopeProofs.SharedSecrets` | crates/core/src/envelope.rs:91-128 | Sender and recipient derive the same key and nonce prefix, or both refuse |
| `EnvelopeProofs.SealThenUnseal` | crates/core/src/envelope.rs:234-284 | The beneficiary unseals exactly the payload, for every payload, the empty one included |
| `EnvelopeProofs.OrderIrrelevant` | crates/core/src/envelope.rs:234-284 | Rearranging the stored chunks changes neither what `verify` says nor what `unseal` returns |
| `EnvelopeProofs.SealShuffleUnseal` | crates/core/src/envelope.rs:141-284 | Seal, any rearrangement, unseal: the payload, or nothing exactly when sealing is refused |
| `RecordStream.Encrypt` | crates/cli/src/main.rs:1070-1220 | For every pattern of short reads the records carry a split of the whole input into parts of at most the chunk size, numbered from 1 |
| `RecordStream.Decrypt` | crates/cli/src/main.rs:394-614 | Succeeds exactly when header and all records are accepted, with the whole plaintext; a refusal leaves the plaintext of the records before |
| `RecordStream.AcceptedExactly` | crates/cli/src/main.rs:469-610 | A record yields a plaintext if and only if it has the next number and its nonce, a verified manifest with that number, the stream's header hash and key id and the plaintext's hash and length, decrypts to it, and keeps count and total within their limits |
| `RecordStream.HeaderExactly` | crates/cli/src/main.rs:394-450 | The header is accepted exactly with the right magic and version, known algorithm numbers, the hash stated for it and a chunk size within limits |
| `RecordStream.DecryptedMeans` | crates/cli/src/main.rs:394-614 | A stream decrypts to an output exactly when its header is accepted and its records, each checked in full on the header's bytes, give the pieces of that output |
| `RecordStream.RecordSays` | crates/cli/src/main.rs:1070-1220 | A written record carries its number, nonce, signed manifest and ciphertext as the reader will ask for them |
| `RecordStream.RunSoFar` | crates/cli/src/main.rs:450-614 | At every turn of an accepted run: numbers count from 1, and pieces, count and total are within bounds |
| `RecordStream.AcceptedRun` | crates/cli/src/main.rs:450-614 | In an accepted stream record i has number i + 1, no nonce repeats, and there are at most a million records and 10 GiB of output |
| `RecordStream.CutStream` | crates/cli/src/main.rs:461-472 | Cutting an accepted stream after any record leaves an accepted stream with a prefix of the output |
| `RecordStream.WrittenRecord` | crates/cli/src/main.rs:1110-1150 | A written record is accepted at its place if and only if the record count and the total allow it, and yields its piece |
| `RecordStream.EncryptThenDecrypt` | crates/core/src/format.rs:134-137 | What was written decrypts to the input if and only if chunk size, record count and total are within the reader's limits, and is refused otherwise |
| `KeyFiles.FindNewline` | crates/core/src/keywrap.rs:112-115 | The position found holds a newline and none comes before it; a miss means there is none |
| `KeyFiles.ReadMetadata` | crates/core/src/keywrap.rs:135-170 | Accepted exactly with decodable salt, a 12-byte nonce, between 600,000 and 10,000,000 iterations and, for a sealed secret, version 1 |
| `KeyFiles.UnpackPack` | crates/core/src/keywrap.rs:99-131 | Two header lines and the ciphertext are recovered whatever bytes the ciphertext holds, newlines included |
| `KeyFiles.ImportExport` | crates/core/src/keywrap.rs:76-185 | Each of the three readers returns the plaintext its writer was given |
| `KeyFiles.ImportMeans` | crates/core/src/keywrap.rs:106-185 | A container opens to a plaintext exactly when it has the title of its kind, a metadata line within limits, and a ciphertext that opens under the derived key |
| `KeyFiles.ExportSays` | crates/core/src/keywrap.rs:76-104 | A written container states title, version, salt, nonce and iteration count, and its ciphertext opens to the plaintext |
| `KeyFiles.KeyMeans` | crates/core/src/crypto.rs:230-298 | A file opens as a signing key exactly when its plaintext has 32 bytes |
| `KeyFiles.BundleMeans` | crates/core/src/keywrap.rs:460-492 | A bundle's plaintext is accepted exactly when it states version 2 and both secrets, each once, the signing secret in either of its spellings |
| `KeyFiles.KeyRoundTrip` | crates/core/src/crypto.rs:150-298 | An exported signing key is recovered |
| `KeyFiles.BundleTextReads` | crates/core/src/keywrap.rs:460-492 | The bundle's JSON reads back to both secrets |
| `KeyFiles.BundleRoundTrip` | crates/core/src/keywrap.rs:494-600 | An exported bundle is recovered with both secrets |
| `KeyFiles.OneReaderOnly` | crates/core/src/keywrap.rs:67-70 | No file at all is opened by two different readers, under any passphrases |
| `KeyFiles.ForeignRefused` | crates/core/src/keywrap.rs:111-122 | What one writer produced is refused by the other two readers under every passphrase |
| `Sessions.BothEndsAgree` | crates/core/src/auth.rs:286-324 | Client and server derive the same session key, or both refuse |
| `Sessions.SessionKeyMeans` | crates/core/src/auth.rs:286-324 | A key is derived exactly when the shared secret is not zero, from secret, challenge and the two public keys in order |
| `Sessions.SessionKeyBinds` | crates/core/src/auth.rs:286-324 | Handshakes with one session key have one shared secret, one challenge and one pair of identities, or the derivation collides |
| `Sessions.Admit` | crates/core/src/auth.rs:456-519 | Admitted exactly when the response is at most 5 seconds ahead and 300 behind, the challenge signature verifies and a key can be derived; the session then lasts 30 minutes under that key |
| `Sessions.CleanupVisibleExactly` | crates/core/src/auth.rs:544-573 | Dropping expired sessions shows in some answer if and only if a session swept at or after its expiry is looked up before its expiry |
| `Sessions.CleanupInvisible` | crates/core/src/auth.rs:544-573 | Over every run with a clock that never runs backwards, dropping expired sessions changes no answer |
| `Sessions.ClockStepBackIsVisible` | crates/core/src/auth.rs:566-573 | Every step back of the clock across a session's expiry gives such a run |
| `Sessions.SessionManager.constructor` | crates/core/src/auth.rs:425-434 | A new table is empty |
| `Sessions.SessionManager.AuthenticateClient` | crates/core/src/auth.rs:456-519 | An admitted session is stored under its id and valid at once; a refusal changes nothing |
| `Sessions.SessionManager.ValidateSession` | crates/core/src/auth.rs:544-558 | Drops what has expired, and answers with the stored session exactly if it is authenticated and neither clock reading has reached its expiry |
| `Sessions.SessionManager.RemoveSession` | crates/core/src/auth.rs:561-563 | No lookup finds that session at any time, and every other one is there unchanged |
| `Sessions.SessionManager.CleanupExpiredSessions` | crates/core/src/auth.rs:566-573 | Keeps exactly the unexpired sessions, unchanged, so that no lookup from now on answers differently |

## Left out

- Real cryptography, base64, `bincode` and `serde` internals: taken by their laws; unforgeability and collision resistance are not assumed, so nothing is said about adversaries who break them. In `Protocol`, that others do not sign with the device's keys is part of what an honest move is.
- Key encodings: raw key bytes, their `ed25519:`/`x25519:` strings and malformed key bytes are not told apart outside `KeyFiles`; a malformed key only shows as a signature that does not verify.
- The manual `--prev-hash`, `--prev-seq` and `--prev-archive` options of `wrap`: operator overrides outside the producer invariant.
- Argument parsing, prompts, printing, exit codes, error texts, zeroization and file permissions: only accept, reject and results are modelled.
- HTTP plumbing, bearer authentication and tenants, JWS receipts and JWKS: a receipt is its verified content (section 5.2 of RFC 7515).
- SQL: tables are sequences and maps with their keys; the casts between unsigned values and `BIGINT` or `INTEGER` columns are bijective and not written out.
- In `Interleaving` the reads a request makes before its first write happen at one instant, and so do its row insert, the predecessor lookup and the lineage insert.
- Path arguments of `verify-chronicle` that mix plain and entry directories, and the order in which the children of a directory are taken, on which the results do not depend.
- RFC 3339 parsing: an optional instant with a total order (section 5.6 of RFC 3339).
- `TrstManifest::validate` for profile-specific metadata fields: one abstract predicate (`Tools.profileOk`).
- Canonical text of profile metadata: an ordered list of members supplied by the caller rather than one tree per profile.
- Segment start times and durations: strings and number texts supplied by the caller, not the floating-point arithmetic behind them; which finite numbers JSON reads back as printed is a parameter (`Tools.readNumber`, `Tools.readMetadata`).
- Lossy UTF-8 decoding of the detached signature file, and UTF-8 validity of container metadata lines.
- JSON with white space or other spellings than the writer's: the reader in `Json` reads what is written, which is all the round trips need.
- A profile option missing on the command line, or an end time out of range, fails a wrap after its chunks, with the effect on disk of the other late failures; input and output errors, and the temporary file and rename of `unwrap`, are not modelled.
- Changes made to the working directory by anything but the device's own commands one after the other, rotation entries lying there before the first one, and two spellings of one path: a name stands for a directory.
- The standard library's sort: an insertion sort with the same result.
- The byte framing of records in a stream: a stream is its complete records, and an incomplete last record ends it, as in the code.
- Live audio input, time limits and the plaintext copy of the encrypt loop.
- V1 stream headers and their migration, algorithm-agility enums beyond the accepted ranges.
- `u64` overflow of clock readings in the session table.
- RecordStream.CutStream: a stream carries no end mark, so that a cut is noticed is not claimed; the code does not detect it.
- YubiKey, ECDSA and software-HSM backends, WASM and JavaScript bindings, dashboards, benches and examples: thin wrappers with no protocol of their own.
- Socket framing and the handshake messages of `auth.rs`: transport only.
