/**
 The device as its commands see it: a state file they overwrite and directories they write into.
 */
module Workspace {
  import opened Text
  import opened Primitives
  import opened Records
  import opened Archive
  import opened Wrap
  import opened Chronicle
  import opened Device
  import opened DeviceProofs
  import opened DiskProofs

  class WorkingDirectory {
    const tools: Tools
    var state: Option<State>
    var disk: map<Bytes, Folder>
    ghost var log: seq<Entry>
    ghost var names: seq<Bytes>

    ghost function Value(): Device
      reads this
    {
      Device(state, disk, log, names)
    }

    /** The state file describes the head of the entries written, and their directories what is left of them. */
    ghost predicate Valid()
      reads this
    {
      Consistent(tools, Value()) && OnDisk(tools, Value())
    }

    constructor (t: Tools, disk: map<Bytes, Folder>)
      requires NoRotations(disk)
      ensures Valid() && tools == t && Value() == New(disk)
    {
      tools, state, this.disk, log, names := t, None, disk, [], [];
      new;
      NewConsistent(t, disk);
    }

    /**
     `seal wrap --chronicle`. On success one archive has been added to the history, signed by the
     identity the state file names and continuing its tip; a failure leaves state and history alone
     and touches no directory but `out`.
     */
    method Wrap(a: WrapArgs, payload: Bytes, out: Bytes) returns (ok: bool)
      requires ToolLaws(tools) && Valid()
      modifies this
      ensures Valid() && Value() == DoWrap(tools, old(Value()), a, payload, out)
      ensures forall name <- old(disk) :: name != out ==> name in disk && disk[name] == old(disk)[name]
      ensures !ok ==> state == old(state) && log == old(log)
      ensures ok ==>
                && |log| == |old(log)| + 1 && log[..|old(log)|] == old(log) && log[|old(log)|].Content?
                && log[|old(log)|].m.device.publicKey == tools.crypto.publicOf(a.secret)
                && state == HeadOf(tools.crypto, GenesisKey(log), log)
      ensures ok && old(state).Some? ==>
                && tools.crypto.publicOf(a.secret) == old(state).value.devicePub
                && log[|old(log)|].m.prev == Some(old(state).value.tip)
    {
      hide Consistent, OnDisk, ToolLaws, Wrapped, ChunksOnly, EntryId;
      ghost var before := Value();
      WrapKeeps(tools, before, a, payload, out);
      WrapKeepsDisk(tools, before, a, payload, out);
      if !EndsWithSeal(out) { return false; }
      var signer := tools.crypto.publicOf(a.secret);
      var link := ResolveChronicle(state, signer);
      var folder := if out in disk then disk[out] else NO_FOLDER;
      var w, left := WrapArchive(tools, a, link.Some?, link, payload, folder.dir);
      if w.None? {
        if !(a.chunkSize > MAX_CHUNK_SIZE_BYTES || payload == "") { disk := disk[out := folder.(dir := left)]; }
        return false;
      }
      WrappedEntry(tools, a, link.value, payload, folder.dir, w.value.0, w.value.1);
      var e := Content(w.value.0, left.chunks);
      disk := disk[out := folder.(dir := left)];
      state := Some(State(signer, link.value.sequence, EntryId(tools.crypto, e), link.value.keyEpoch));
      log, names := log + [e], names + [out];
      HeadKnown(tools, Value());
      return true;
    }

    /**
     `seal rekey`. It succeeds exactly for the identity in force, a different new key and a new path.
     Then the history has gained a rotation from the one key to the other that continues the tip, and
     the next entry is signed with the new key; otherwise nothing has changed.
     */
    method Rekey(oldSecret: Bytes, newSecret: Bytes, newAgreement: Bytes, rotatedAt: Bytes, out: Bytes) returns (ok: bool)
      requires ToolLaws(tools) && Valid()
      modifies this
      ensures Valid() && Value() == DoRekey(tools, old(Value()), oldSecret, newSecret, newAgreement, rotatedAt, out)
      ensures ok <==> && old(state).Some? && old(state).value.devicePub == tools.crypto.publicOf(oldSecret)
                      && tools.crypto.publicOf(newSecret) != tools.crypto.publicOf(oldSecret) && out !in old(disk)
      ensures !ok ==> Value() == old(Value())
      ensures ok ==>
                && |log| == |old(log)| + 1 && log[..|old(log)|] == old(log) && log[|old(log)|].Rotation?
                && state == HeadOf(tools.crypto, GenesisKey(log), log)
                && state.value.devicePub == tools.crypto.publicOf(newSecret)
                && var r := log[|old(log)|].r;
                   && r.oldKey == old(state).value.devicePub && r.newKey == state.value.devicePub
                   && r.prev == old(state).value.tip
                   && (old(state).value.keyEpoch + 1 < U32_LIMIT ==> RotationVerifies(tools.crypto, r))
    {
      hide Consistent, OnDisk, ToolLaws, EntryId, RotationVerifies, RotationBytes;
      ghost var before := Value();
      RekeyKeeps(tools, before, oldSecret, newSecret, newAgreement, rotatedAt, out);
      RekeyKeepsDisk(tools, before, oldSecret, newSecret, newAgreement, rotatedAt, out);
      if state.None? { return false; }
      var st, c := state.value, tools.crypto;
      if c.publicOf(oldSecret) != st.devicePub { return false; }
      if c.publicOf(newSecret) == c.publicOf(oldSecret) { return false; }
      if out in disk { return false; }
      var r := CreateRotation(c, oldSecret, st.keyEpoch, newSecret, newAgreement, U64(st.sequence + 1), st.tip, rotatedAt);
      LawfulTools(tools);
      if st.keyEpoch + 1 < U32_LIMIT {
        CreatedRotationVerifies(c, oldSecret, st.keyEpoch, newSecret, newAgreement, U64(st.sequence + 1), st.tip, rotatedAt);
      }
      disk := disk[out := NO_FOLDER.(rotation := Some(tools.encodeRotation(r)))];
      state := Some(State(c.publicOf(newSecret), r.sequence, EntryId(c, Rotation(r)), r.newEpoch));
      log, names := log + [Rotation(r)], names + [out];
      HeadKnown(tools, Value());
      return true;
    }
  }

  lemma HeadKnown(t: Tools, d: Device)
    requires Consistent(t, d)
    ensures d.state == HeadOf(t.crypto, GenesisKey(d.log), d.log)
  {
    hide Made, HeadOf;
  }
}
