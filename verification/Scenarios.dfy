/**
 The failing runs, started from nothing: with tools that meet every law, the commands in them succeed.
 */
module Scenarios {
  import opened Text
  import opened Json
  import opened Primitives
  import opened Records
  import opened Streams
  import opened Sorting
  import opened Archive
  import opened Wrap
  import opened WrapProofs
  import opened Chronicle
  import opened ChronicleProofs
  import opened Device
  import opened DeviceProofs
  import opened DiskProofs
  import opened Ledger
  import opened Platform
  import opened PlatformProofs
  import opened Protocol
  import opened ProtocolProofs
  import opened Satisfiable

  const NOTHING: map<Bytes, Folder> := map[]

  /** A sign-only wrap of one-byte chunks under `secret`. */
  function Plain(secret: Bytes, duration: NumText): WrapArgs {
    WrapArgs(1, None, i => Zeros(24), i => "", i => "", duration, "generic", "t", "t", NoMembers, "d", secret, secret, [])
  }

  function PlainOp(secret: Bytes, out: Bytes): Op { WrapOp(Plain(secret, "0"), "x", out) }

  /** The manifest such a wrap signs at a position of the chronicle. */
  ghost function PlainManifest(a: WrapArgs, link: Link): Manifest {
    Signed(Trivial(), a, Unsigned(SomeTools([]), a, Some(link), SegmentsFor(Trivial(), a, ["x"])))
  }

  /** Every entry has this id, the digest being constant. */
  function Tip(): Bytes { ArchiveId(Zeros(DIGEST_LEN)) }

  lemma EveryTip(e: Entry)
    ensures EntryId(Trivial(), e) == Tip()
  {
    hide Canonical;
  }

  lemma OnePiece()
    ensures Pieces("x", 1) == ["x"]
  {
    assert "x"[..1] == "x" && "x"[1..] == "" && Min(1, |"x"|) == 1;
    assert Split("x", 1) == ["x"] + Split("", 1);
  }

  lemma PlainStored(a: WrapArgs)
    requires a.cek.None? && a.chunkSize == 1
    ensures StoredChunks(Trivial(), a, Pieces("x", 1)) == ["x"]
  {
    OnePiece();
  }

  /** A plain wrap succeeds wherever it is made, as soon as its manifest has a short code. */
  lemma PlainWrap(short: seq<Manifest>, a: WrapArgs, link: Link, existing: Dir)
    requires a.cek.None? && a.chunkSize == 1 && a.recipients == [] && |short| < 10
    requires FewSegments(short) && PlainManifest(a, link) in short
    ensures var t, m := SomeTools(short), PlainManifest(a, link);
            Wrapped(t, a, Some(link), "x", existing) == Some((m, Dir(Some(t.encode(m)), m.signature, Written(existing.chunks, ["x"]))))
  {
    hide ManifestBytes, Encoder, DecodeManifest, ShortText, SegmentFor, FewSegments, Pieces, Written;
    var t := SomeTools(short);
    ToolLawsAreSatisfiable(short);
    PlainStored(a);
    assert Unsigned(t, a, Some(link), SegmentsFor(Trivial(), a, ["x"])) == Unsigned(SomeTools([]), a, Some(link), SegmentsFor(Trivial(), a, ["x"]));
  }

  /** One plain wrap of a device. */
  lemma PlainStep(short: seq<Manifest>, d: Device, a: WrapArgs, link: Link, out: Bytes)
    requires a.cek.None? && a.chunkSize == 1 && a.recipients == [] && |short| < 10 && EndsWithSeal(out)
    requires FewSegments(short) && PlainManifest(a, link) in short && ResolveChronicle(d.state, a.secret) == Some(link)
    ensures var t, m := SomeTools(short), PlainManifest(a, link);
            var dir := Dir(Some(t.encode(m)), m.signature, Written(FolderAt(d, out).dir.chunks, ["x"]));
            && WrapOutcome(t, d, a, "x", out) == Some((m, dir))
            && DoWrap(t, d, a, "x", out) ==
               Device(Some(State(a.secret, link.sequence, Tip(), link.keyEpoch)), d.disk[out := FolderAt(d, out).(dir := dir)],
                      d.log + [Content(m, dir.chunks)], d.names + [out])
  {
    hide Wrapped, Written, PlainManifest, EndsWithSeal, EntryId, FewSegments, Encoder, DecodeManifest;
    PlainWrap(short, a, link, FolderAt(d, out).dir);
    EveryTip(Content(PlainManifest(a, link), Written(FolderAt(d, out).dir.chunks, ["x"])));
  }

  const FIRST: Link := Link(0, None, 0)

  function After(sequence: nat, epoch: nat): Link { Link(sequence, Some(Tip()), epoch) }

  lemma PlainIsSmall(a: WrapArgs, link: Link)
    ensures |PlainManifest(a, link).segments| == 1
  {
    hide ManifestBytes, SegmentFor;
  }

  /** A new device after its first wrap. */
  lemma FirstWrap(short: seq<Manifest>, secret: Bytes, duration: NumText, out: Bytes)
    requires |short| < 10 && FewSegments(short) && PlainManifest(Plain(secret, duration), FIRST) in short && EndsWithSeal(out)
    ensures var t, a, d := SomeTools(short), Plain(secret, duration), Run(SomeTools(short), NOTHING, [WrapOp(Plain(secret, duration), "x", out)]);
            && WrapOutcome(t, New(NOTHING), a, "x", out).Some?
            && d.state == Some(State(secret, 0, Tip(), 0)) && d.names == [out] && |d.log| == 1 && d.log[0].Content?
            && d.disk.Keys == {out} && d.disk[out].rotation == None
  {
    hide Written, PlainManifest, EndsWithSeal, FewSegments, DoWrap, WrapOutcome, Tip;
    var t, a := SomeTools(short), Plain(secret, duration);
    RunOneMore(t, NOTHING, [], WrapOp(a, "x", out));
    assert [] + [WrapOp(a, "x", out)] == [WrapOp(a, "x", out)];
    PlainStep(short, New(NOTHING), a, FIRST, out);
  }

  /** Two wraps into one directory both succeed, and what is left is refused. */
  lemma TwoWrapsHappen() returns (t: Tools, ops: seq<Op>)
    ensures ToolLaws(t) && |ops| == 2 && forall i :: 0 <= i < 2 ==> ops[i].WrapOp? && ops[i].out == "a.seal"
    ensures var d := Run(t, NOTHING, ops);
            |d.log| == 2 && !PathsAccepted(t, GenesisKey(d.log), d.disk, ["a.seal"], None)
  {
    hide PlainManifest, DoWrap, PathsAccepted, ToolLaws, Tip, Written, Encoder, DecodeManifest;
    var a, op := Plain("a", "0"), PlainOp("a", "a.seal");
    var short := [PlainManifest(a, FIRST), PlainManifest(a, After(1, 0))];
    PlainIsSmall(a, FIRST);
    PlainIsSmall(a, After(1, 0));
    t, ops := SomeTools(short), [op, op];
    ToolLawsAreSatisfiable(short);
    assert EndsWithSeal("a.seal");
    FirstWrap(short, "a", "0", "a.seal");
    RunOneMore(t, NOTHING, [op], op);
    assert [op] + [op] == ops;
    PlainStep(short, Run(t, NOTHING, [op]), a, After(1, 0), "a.seal");
    TwoWrapsOneOutput(t, a, "x", a, "x", "a.seal");
  }

  /** A wrap with an infinite chunk duration succeeds, and its chronicle is refused. */
  lemma NotFiniteHappens() returns (t: Tools, op: Op)
    ensures ToolLaws(t) && op.WrapOp? && op.args.duration == "inf" && op.out == "a.seal"
    ensures var d := Run(t, NOTHING, [op]);
            |d.log| == 1 && d.state.Some? && forall g :: !PathsAccepted(t, g, d.disk, ["a.seal"], None)
  {
    hide PlainManifest, DoWrap, PathsAccepted, ToolLaws, Tip, Written, Encoder, DecodeManifest, WrapOutcome;
    var a := Plain("a", "inf");
    var short := [PlainManifest(a, FIRST)];
    PlainIsSmall(a, FIRST);
    t, op := SomeTools(short), WrapOp(a, "x", "a.seal");
    ToolLawsAreSatisfiable(short);
    assert EndsWithSeal("a.seal");
    FirstWrap(short, "a", "inf", "a.seal");
    assert [] + [op] == [op];
    forall g ensures !PathsAccepted(t, g, Run(t, NOTHING, [op]).disk, ["a.seal"], None) {
      NotFiniteWrap(t, NOTHING, [], op, ["a.seal"], g);
    }
  }

  // ── After an orderly start ─────────────────────────────────────────────────

  lemma PlainCallOk(short: seq<Manifest>, secret: Bytes)
    requires secret != ""
    ensures CallOk(SomeTools(short), Plain(secret, "0"), "x", NO_FOLDER.dir)
  {
    hide Encoder, DecodeManifest;
  }

  lemma {:induction false} FewRotations(log: seq<Entry>, k: nat)
    requires k <= |log|
    ensures RotationsIn(log, k) <= k
  {
    if k > 0 { FewRotations(log, k - 1); }
  }

  /** The first wrap of a new device is an orderly run. */
  lemma FirstOrderly(short: seq<Manifest>, secret: Bytes)
    requires |short| < 10 && FewSegments(short) && PlainManifest(Plain(secret, "0"), FIRST) in short && secret != ""
    ensures var t, op := SomeTools(short), PlainOp(secret, "a.seal");
            && CallsOk(t, NOTHING, [op]) && HarmlessCalls(t, NOTHING, [op])
            && Orderly(t, NOTHING, [op]) && Listing(Run(t, NOTHING, [op]), ["a.seal"])
  {
    hide PlainManifest, ToolLaws, Tip, Written, CallOk, Encoder, DecodeManifest, WrapOutcome, DoWrap, Unspoiled, FewSegments;
    var t, op := SomeTools(short), PlainOp(secret, "a.seal");
    ToolLawsAreSatisfiable(short);
    assert EndsWithSeal("a.seal");
    FirstWrap(short, secret, "0", "a.seal");
    assert [op][..0] == [];
    PlainCallOk(short, secret);
    assert FolderAt(New(NOTHING), "a.seal") == NO_FOLDER;
    FewRotations(Run(t, NOTHING, [op]).log, 1);
    HarmlessIsOrderly(t, NOTHING, [op]);
  }

  /** A wrap by another signer into the directory of an archive fails, and the archive is refused afterwards. */
  lemma FailedWrapHappens() returns (t: Tools, first: Op, op: Op)
    ensures ToolLaws(t) && Orderly(t, NOTHING, [first]) && op.WrapOp? && op.out == "a.seal"
    ensures var d, d' := Run(t, NOTHING, [first]), Run(t, NOTHING, [first, op]);
            && d'.log == d.log && d'.state == d.state && d.names == ["a.seal"]
            && PathsAccepted(t, GenesisKey(d.log), d.disk, ["a.seal"], None)
            && !PathsAccepted(t, GenesisKey(d.log), d'.disk, ["a.seal"], None)
  {
    hide PlainManifest, ToolLaws, Tip, Written, Encoder, DecodeManifest, PathsAccepted, Orderly, CallsOk, HarmlessCalls, Listing,
         GenesisKey, ChunksOnly, StoredOf;
    var short := [PlainManifest(Plain("a", "0"), FIRST)];
    PlainIsSmall(Plain("a", "0"), FIRST);
    t, first, op := SomeTools(short), PlainOp("a", "a.seal"), WrapOp(Plain("b", "0"), "xy", "a.seal");
    ToolLawsAreSatisfiable(short);
    assert EndsWithSeal("a.seal");
    FirstWrap(short, "a", "0", "a.seal");
    FirstOrderly(short, "a");
    var d := Run(t, NOTHING, [first]);
    assert WrapOutcome(t, d, op.args, op.payload, op.out).None?;
    assert [first] + [op] == [first, op];
    FailedWrapDevice(t, NOTHING, [first], op);
    ProducedChronicleVerifies(t, NOTHING, [first], ["a.seal"]);
    FailedWrapVerifies(t, NOTHING, [first], op, 0, ["a.seal"]);
    FirstManifest(short, "a");
    TwoPieces(t, op.args);
  }

  lemma FirstManifest(short: seq<Manifest>, secret: Bytes)
    requires |short| < 10 && FewSegments(short) && PlainManifest(Plain(secret, "0"), FIRST) in short
    ensures var d := Run(SomeTools(short), NOTHING, [PlainOp(secret, "a.seal")]);
            |d.log| == 1 && d.log[0].Content? && d.log[0].m == PlainManifest(Plain(secret, "0"), FIRST)
  {
    hide Written, PlainManifest, FewSegments, DoWrap, WrapOutcome, Tip;
    var t, op := SomeTools(short), PlainOp(secret, "a.seal");
    RunOneMore(t, NOTHING, [], op);
    assert [] + [op] == [op] && EndsWithSeal("a.seal");
    PlainStep(short, New(NOTHING), Plain(secret, "0"), FIRST, "a.seal");
  }

  lemma TwoPieces(t: Tools, a: WrapArgs)
    requires a.chunkSize == 1
    ensures |StoredOf(t, a, "xy")| == 2
  {
    assert "xy"[..1] == "x" && "xy"[1..] == "y" && "y"[..1] == "y" && "y"[1..] == "" && Min(1, 2) == 1 && Min(1, 1) == 1;
    assert Split("xy", 1) == ["x"] + Split("y", 1);
    assert Split("y", 1) == ["y"] + Split("", 1);
  }

  const ROTATE: Op := RekeyOp("a", "b", "b", "t", "r.seal")

  /** A wrap, a key rotation, and the new key's first archive in the directory of the rotation: it is never seen. */
  lemma HiddenHappens() returns (t: Tools, ops: seq<Op>, op: Op)
    ensures ToolLaws(t) && Orderly(t, NOTHING, ops) && op.WrapOp? && op.out == "r.seal"
    ensures var d, d', paths := Run(t, NOTHING, ops), Run(t, NOTHING, ops + [op]), ["a.seal", "r.seal"];
            && Listing(d', paths) && |d.log| == 2 && |d'.log| == 3
            && PathsAccepted(t, GenesisKey(d.log), d'.disk, paths, None)
  {
    hide PlainManifest, ToolLaws, Tip, Written, Encoder, DecodeManifest, PathsAccepted, Orderly, CallsOk, HarmlessCalls,
         GenesisKey, DoWrap, CreateRotation, EntryId, WrapOutcome;
    var short := [PlainManifest(Plain("a", "0"), FIRST), PlainManifest(Plain("b", "0"), After(2, 1))];
    PlainIsSmall(Plain("a", "0"), FIRST);
    PlainIsSmall(Plain("b", "0"), After(2, 1));
    var first := PlainOp("a", "a.seal");
    t, ops, op := SomeTools(short), [first, ROTATE], PlainOp("b", "r.seal");
    ToolLawsAreSatisfiable(short);
    assert EndsWithSeal("a.seal") && EndsWithSeal("r.seal");
    FirstWrap(short, "a", "0", "a.seal");
    FirstOrderly(short, "a");
    var d := Rotated(short);
    PlainStep(short, d, Plain("b", "0"), After(2, 1), "r.seal");
    RunOneMore(t, NOTHING, ops, op);
    assert Elements(["a.seal", "r.seal"]) == Elements(d.names);
    HiddenBehindRotation(t, NOTHING, ops, op, ["a.seal", "r.seal"]);
  }

  /** The device after the rotation. */
  lemma Rotated(short: seq<Manifest>) returns (d: Device)
    requires |short| < 10 && FewSegments(short) && PlainManifest(Plain("a", "0"), FIRST) in short
    ensures d == Run(SomeTools(short), NOTHING, [PlainOp("a", "a.seal"), ROTATE])
    ensures d.state == Some(State("b", 1, Tip(), 1)) && d.names == ["a.seal", "r.seal"] && |d.log| == 2
    ensures FolderAt(d, "r.seal").rotation.Some?
    ensures Orderly(SomeTools(short), NOTHING, [PlainOp("a", "a.seal"), ROTATE])
  {
    hide PlainManifest, ToolLaws, Tip, Written, Encoder, DecodeManifest, Orderly, DoWrap, WrapOutcome, EntryId, FewSegments,
         RotationBytes, Listing, CallOk, Unspoiled;
    var t, first := SomeTools(short), PlainOp("a", "a.seal");
    ToolLawsAreSatisfiable(short);
    assert EndsWithSeal("a.seal");
    FirstWrap(short, "a", "0", "a.seal");
    FirstOrderly(short, "a");
    RunOneMore(t, NOTHING, [first], ROTATE);
    assert [first] + [ROTATE] == [first, ROTATE] && [first, ROTATE][..1] == [first];
    var before := Run(t, NOTHING, [first]);
    d := Run(t, NOTHING, [first, ROTATE]);
    var r := RekeyOutcome(t, before, "a", "b", "b", "t", "r.seal").value;
    EveryTip(Rotation(r));
    FewRotations(d.log, 2);
    HarmlessIsOrderly(t, NOTHING, [first, ROTATE]);
  }

  // ── A request that comes late ──────────────────────────────────────────────

  const PARSE: Clock := (at: Bytes) => Some(0)

  /** Nothing witnessed yet: a request without a rotation may be delivered with an empty load. */
  function Delivery(i: nat, loaded: seq<WitnessEntry>): Move { Deliver(i, None, "t", "id", loaded, None) }

  lemma FreshStart(key: Bytes)
    ensures FreshKey(Start(NOTHING), key)
  {
  }

  lemma {:induction false} OneMoveMore(t: Tools, parse: Clock, s: System, moves: seq<Move>, mid: System, m: Move)
    requires HonestRun(t, parse, s, moves, mid) && Honest(t, parse, mid, m)
    ensures HonestRun(t, parse, s, moves + [m], Next(t, parse, mid, m))
    decreases |moves|
  {
    hide Honest, Next;
    if moves == [] {
      assert (moves + [m])[1..] == [];
    } else {
      OneMoveMore(t, parse, Next(t, parse, s, moves[0]), moves[1..], mid, m);
      assert (moves + [m])[1..] == moves[1..] + [m];
    }
  }

  /** The system after the device's first archive. */
  lemma FirstArchive(short: seq<Manifest>) returns (s: System)
    requires |short| < 10 && FewSegments(short) && PlainManifest(Plain("a", "0"), FIRST) in short
    ensures var t, first := SomeTools(short), Command(PlainOp("a", "a.seal"));
            && Honest(t, PARSE, Start(NOTHING), first) && s == Next(t, PARSE, Start(NOTHING), first) && InStep(t, PARSE, s)
    ensures s.p == EMPTY && s.signed == [] && |s.device.log| == 1 && s.device.state == Some(State("a", 0, Tip(), 0))
  {
    hide PlainManifest, ToolLaws, Tip, Written, Encoder, DecodeManifest, InStep, FewSegments, FreshKey, WrapOutcome, DoWrap;
    var t, op := SomeTools(short), PlainOp("a", "a.seal");
    ToolLawsAreSatisfiable(short);
    FreshStart("a");
    assert EndsWithSeal("a.seal") && [] + [op] == [op];
    FirstWrap(short, "a", "0", "a.seal");
    RunOneMore(t, NOTHING, [], op);
    s := Next(t, PARSE, Start(NOTHING), Command(op));
    FewRotations(s.device.log, 1);
    StartInStep(t, PARSE, NOTHING);
    MoveKeeps(t, PARSE, Start(NOTHING), Command(op));
  }

  /** The device's second archive goes through. */
  lemma SecondWrap(short: seq<Manifest>, d: Device)
    requires |short| < 10 && FewSegments(short) && PlainManifest(Plain("a", "0"), After(1, 0)) in short
    requires |d.log| == 1 && d.state == Some(State("a", 0, Tip(), 0))
    ensures var log := Apply(SomeTools(short), d, PlainOp("a", "b.seal")).log; |log| == 2 && WithinWidth(log)
  {
    hide PlainManifest, Tip, Written, FewSegments, WrapOutcome, DoWrap;
    assert EndsWithSeal("b.seal");
    PlainStep(short, d, Plain("a", "0"), After(1, 0), "b.seal");
    FewRotations(Apply(SomeTools(short), d, PlainOp("a", "b.seal")).log, 2);
  }

  /** A request for `key` without a rotation may be delivered with the rows there are, as long as no rotation is on record. */
  lemma MayDeliver(t: Tools, s: System, i: nat, key: Bytes)
    requires i < |s.signed| && s.signed[i].devicePub == key && s.p.lineage == []
    ensures Honest(t, PARSE, s, Delivery(i, EntriesOf(s.p.log, key)))
  {
    hide EntriesOf;
  }

  /** A request is signed for later, another archive is wrapped and witnessed, and the request comes too late. */
  lemma OfflineHappens() returns (t: Tools, moves: seq<Move>, s: System, late: Move)
    ensures ToolLaws(t) && HonestRun(t, PARSE, Start(NOTHING), moves, s)
    ensures late.Deliver? && Honest(t, PARSE, s, late)
    ensures late.i < |s.signed| && Answer(t, s, late) == Refused(IsRollback)
  {
    hide PlainManifest, ToolLaws, Tip, Encoder, DecodeManifest, Apply, InStep, Witness, WithinWidth, CreateWitness, Honest,
         WitnessBytes, EntriesOf;
    var a := Plain("a", "0");
    var short := [PlainManifest(a, FIRST), PlainManifest(a, After(1, 0))];
    PlainIsSmall(a, FIRST);
    PlainIsSmall(a, After(1, 0));
    t := SomeTools(short);
    ToolLawsAreSatisfiable(short);
    var first, op := Command(PlainOp("a", "a.seal")), PlainOp("a", "b.seal");
    var s1 := FirstArchive(short);
    SecondWrap(short, s1.device);
    var s3 := Prepared(t, PARSE, s1, "a", "t", op, "t");
    PreparedRequests(t, PARSE, s1, "a", "t", op, "t");
    var m := Delivery(1, EntriesOf(s3.p.log, "a"));
    MayDeliver(t, s3, 1, "a");
    s := Next(t, PARSE, s3, m);
    WitnessLineage(t.crypto, s3.p, Delivered(s3, m));
    late := Delivery(0, EntriesOf(s.p.log, "a"));
    MayDeliver(t, s, 0, "a");
    NothingRecorded();
    OfflineRequestOvertaken(t, PARSE, s1, "a", "t", op, "t", m, late);
    var rest := [Sign("a", false, "t"), Command(op), Sign("a", false, "t")];
    assert ([first] + rest)[1..] == rest;
    assert HonestRun(t, PARSE, Start(NOTHING), [first] + rest, s3);
    OneMoveMore(t, PARSE, Start(NOTHING), [first] + rest, s3, m);
    moves := [first] + rest + [m];
  }

  lemma NothingRecorded()
    ensures EntriesOf(EMPTY.log, "a") == [] && !Revoked(EMPTY, "a")
  {
  }
}
