/**
 The producing side of a chronicle: `seal wrap --chronicle` and `seal rekey` advance a small
 head record, the chronicle state, and append one entry each.
 */
module Device {
  import opened Text
  import opened Primitives
  import opened Records
  import opened Archive
  import opened Wrap
  import opened Chronicle

  /** The chronicle state file: who signs next, and the most recent entry. */
  datatype State = State(devicePub: Bytes, sequence: nat, tip: Bytes, keyEpoch: nat)

  /**
   A device's working directory: the state file, absent before the first wrap, and the directories
   beside it. `log` and `names` are its history: every entry ever written, as it was when written, and
   the name it was written under.
   */
  datatype Device = Device(state: Option<State>, disk: map<Bytes, Folder>, log: seq<Entry>, names: seq<Bytes>)

  /** A device that has not written anything yet, among whatever lies in its working directory. */
  function New(disk: map<Bytes, Folder>): Device { Device(None, disk, [], []) }

  function FolderAt(d: Device, out: Bytes): Folder { if out in d.disk then d.disk[out] else NO_FOLDER }

  predicate EndsWithSeal(name: Bytes) { |name| >= 5 && name[|name| - 5..] == ".seal" }

  /** `resolve_chronicle` without the manual `--prev-*` overrides; `None` if the state is another signer's. */
  function ResolveChronicle(state: Option<State>, signer: Bytes): Option<Link> {
    match state
    case None => Some(Link(0, None, 0))
    case Some(st) =>
      if st.devicePub != signer then None else Some(Link(U64(st.sequence + 1), Some(st.tip), st.keyEpoch))
  }

  /** The archive a wrap into `out` would complete, if it gets that far. */
  function WrapOutcome(t: Tools, d: Device, a: WrapArgs, payload: Bytes, out: Bytes): Option<(Manifest, Dir)> {
    var link := ResolveChronicle(d.state, t.crypto.publicOf(a.secret));
    if !EndsWithSeal(out) || link.None? then None else Wrapped(t, a, link, payload, FolderAt(d, out).dir)
  }

  /**
   `seal wrap --chronicle`. An existing output directory is written into. A failure before the first
   chunk leaves everything as it was, a later one leaves the chunks; neither touches the state file.
   */
  function DoWrap(t: Tools, d: Device, a: WrapArgs, payload: Bytes, out: Bytes): Device {
    var folder := FolderAt(d, out);
    match WrapOutcome(t, d, a, payload, out)
    case Some((m, dir)) =>
      var link := ResolveChronicle(d.state, t.crypto.publicOf(a.secret)).value;
      var e := Content(m, dir.chunks);
      Device(Some(State(t.crypto.publicOf(a.secret), link.sequence, EntryId(t.crypto, e), link.keyEpoch)),
             d.disk[out := folder.(dir := dir)], d.log + [e], d.names + [out])
    case None =>
      if !EndsWithSeal(out) || RefusedEarly(a, payload) then d
      else d.(disk := d.disk[out := folder.(dir := ChunksOnly(t, a, payload, folder.dir))])
  }

  /** The rotation `seal rekey` signs; refused without a state, for a foreign or unchanged key, or onto an existing path. */
  function RekeyOutcome(t: Tools, d: Device, oldSecret: Bytes, newSecret: Bytes, newAgreement: Bytes, rotatedAt: Bytes, out: Bytes)
    : Option<RotationRecord>
  {
    var c := t.crypto;
    if d.state.None? || out in d.disk then None
    else if c.publicOf(oldSecret) != d.state.value.devicePub || c.publicOf(newSecret) == c.publicOf(oldSecret) then None
    else Some(CreateRotation(c, oldSecret, d.state.value.keyEpoch, newSecret, newAgreement,
                             U64(d.state.value.sequence + 1), d.state.value.tip, rotatedAt))
  }

  /** `seal rekey`. */
  function DoRekey(t: Tools, d: Device, oldSecret: Bytes, newSecret: Bytes, newAgreement: Bytes, rotatedAt: Bytes, out: Bytes): Device {
    match RekeyOutcome(t, d, oldSecret, newSecret, newAgreement, rotatedAt, out)
    case None => d
    case Some(r) =>
      Device(Some(State(t.crypto.publicOf(newSecret), r.sequence, EntryId(t.crypto, Rotation(r)), r.newEpoch)),
             d.disk[out := NO_FOLDER.(rotation := Some(t.encodeRotation(r)))], d.log + [Rotation(r)], d.names + [out])
  }

  datatype Op =
    | WrapOp(args: WrapArgs, payload: Bytes, out: Bytes)
    | RekeyOp(oldSecret: Bytes, newSecret: Bytes, newAgreement: Bytes, rotatedAt: Bytes, out: Bytes)

  function Apply(t: Tools, d: Device, op: Op): Device {
    match op
    case WrapOp(a, payload, out) => DoWrap(t, d, a, payload, out)
    case RekeyOp(o, n, ka, at, out) => DoRekey(t, d, o, n, ka, at, out)
  }

  /** Any sequence of commands on a new device. */
  function Run(t: Tools, disk: map<Bytes, Folder>, ops: seq<Op>): Device {
    if ops == [] then New(disk) else Apply(t, Run(t, disk, ops[..|ops| - 1]), ops[|ops| - 1])
  }
}
