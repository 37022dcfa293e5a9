/**
 The witness ledger's decision logic for one device key, and what it means on a ledger whose
 sequences are distinct.
 */
module Ledger {
  import opened Text

  datatype WitnessEntry = WitnessEntry(sequence: nat, tip: Bytes, observedAt: Bytes)

  datatype Decision =
    | Record(prev: Option<WitnessEntry>)
    | Replay(existing: WitnessEntry, prev: Option<WitnessEntry>)
    | Fork(existingTip: Bytes)
    | Rollback(maxSequence: nat)

  /** The first loaded row at `sequence`. */
  function Find(rows: seq<WitnessEntry>, sequence: nat): (r: Option<WitnessEntry>)
    ensures r.Some? ==> r.value in rows && r.value.sequence == sequence
    ensures r.None? ==> forall e :: e in rows ==> e.sequence != sequence
  {
    if rows == [] then None else if rows[0].sequence == sequence then Some(rows[0]) else Find(rows[1..], sequence)
  }

  function MaxSequence(rows: seq<WitnessEntry>): (r: Option<nat>)
    ensures r.None? <==> rows == []
    ensures r.Some? ==> (forall e :: e in rows ==> e.sequence <= r.value) && exists e :: e in rows && e.sequence == r.value
  {
    if rows == [] then None else
    match MaxSequence(rows[1..])
    case Some(m) =>
      if m >= rows[0].sequence then
        assert forall e :: e in rows ==> e == rows[0] || e in rows[1..];
        Some(m)
      else
        assert forall e :: e in rows ==> e == rows[0] || e in rows[1..];
        assert rows[0] in rows;
        Some(rows[0].sequence)
    case None =>
      assert rows == [rows[0]];
      Some(rows[0].sequence)
  }

  /** The row with the highest sequence strictly below `sequence`; of several, the last loaded. */
  function PrevEntry(rows: seq<WitnessEntry>, sequence: nat): (r: Option<WitnessEntry>)
    ensures r.Some? ==> r.value in rows && r.value.sequence < sequence
    ensures r.Some? ==> forall e :: e in rows && e.sequence < sequence ==> e.sequence <= r.value.sequence
    ensures r.None? ==> forall e :: e in rows ==> e.sequence >= sequence
  {
    if rows == [] then None else
    assert forall e :: e in rows ==> e == rows[0] || e in rows[1..];
    match PrevEntry(rows[1..], sequence)
    case None => if rows[0].sequence < sequence then Some(rows[0]) else None
    case Some(best) => if rows[0].sequence < sequence && rows[0].sequence > best.sequence then Some(rows[0]) else Some(best)
  }

  /** `witness::decide`. */
  function Decide(rows: seq<WitnessEntry>, sequence: nat, tip: Bytes): Decision {
    match Find(rows, sequence)
    case Some(same) =>
      if same.tip == tip then Replay(same, PrevEntry(rows, sequence)) else Fork(same.tip)
    case None =>
      match MaxSequence(rows)
      case Some(max) => if sequence <= max then Rollback(max) else Record(PrevEntry(rows, sequence))
      case None => Record(PrevEntry(rows, sequence))
  }

  /** No two rows of one key share a sequence. */
  predicate Distinct(rows: seq<WitnessEntry>) {
    forall i, j :: 0 <= i < j < |rows| ==> rows[i].sequence != rows[j].sequence
  }

  /** Rows in insertion order have strictly increasing sequences. */
  predicate Increasing(rows: seq<WitnessEntry>) {
    forall i, j :: 0 <= i < j < |rows| ==> rows[i].sequence < rows[j].sequence
  }

  lemma OneRowPerSequence(rows: seq<WitnessEntry>, e: WitnessEntry, f: WitnessEntry)
    requires Distinct(rows) && e in rows && f in rows && e.sequence == f.sequence
    ensures e == f
  {
    var i :| 0 <= i < |rows| && rows[i] == e;
    var j :| 0 <= j < |rows| && rows[j] == f;
  }

  ghost predicate SameRows(a: seq<WitnessEntry>, b: seq<WitnessEntry>) {
    forall e :: e in a <==> e in b
  }

  lemma LoadedRows(a: seq<WitnessEntry>, b: seq<WitnessEntry>)
    requires multiset(a) == multiset(b)
    ensures SameRows(a, b)
  {
    forall e ensures e in a <==> e in b { assert e in multiset(a) <==> e in multiset(b); }
  }

  lemma PrevOrderFree(a: seq<WitnessEntry>, b: seq<WitnessEntry>, sequence: nat)
    requires SameRows(a, b) && Distinct(a)
    ensures PrevEntry(a, sequence) == PrevEntry(b, sequence)
  {
    hide PrevEntry;
    var p, q := PrevEntry(a, sequence), PrevEntry(b, sequence);
    if p.Some? && q.Some? {
      OneRowPerSequence(a, p.value, q.value);
    }
  }

  lemma FindOrderFree(a: seq<WitnessEntry>, b: seq<WitnessEntry>, sequence: nat)
    requires SameRows(a, b) && Distinct(a)
    ensures Find(a, sequence) == Find(b, sequence)
  {
    hide Find;
    var p, q := Find(a, sequence), Find(b, sequence);
    if p.Some? && q.Some? { OneRowPerSequence(a, p.value, q.value); }
  }

  lemma MaxOrderFree(a: seq<WitnessEntry>, b: seq<WitnessEntry>)
    requires SameRows(a, b)
    ensures MaxSequence(a) == MaxSequence(b)
  {
    hide MaxSequence;
    if b != [] { assert b[0] in a; }
    if a != [] { assert a[0] in b; }
  }

  /** The decision does not depend on the order in which the rows are loaded. */
  lemma DecideOrderFree(a: seq<WitnessEntry>, b: seq<WitnessEntry>, sequence: nat, tip: Bytes)
    requires multiset(a) == multiset(b) && Distinct(a)
    ensures Decide(a, sequence, tip) == Decide(b, sequence, tip)
  {
    hide Find, MaxSequence, PrevEntry;
    LoadedRows(a, b);
    FindOrderFree(a, b, sequence);
    MaxOrderFree(a, b);
    PrevOrderFree(a, b, sequence);
  }

  lemma IncreasingIsDistinct(rows: seq<WitnessEntry>)
    requires Increasing(rows)
    ensures Distinct(rows)
  {
  }

  /** On an increasing ledger the entry before row `i` is row `i - 1`. */
  lemma PrevOfRow(rows: seq<WitnessEntry>, i: nat)
    requires Increasing(rows) && i < |rows|
    ensures PrevEntry(rows, rows[i].sequence) == if i == 0 then None else Some(rows[i - 1])
  {
    hide PrevEntry;
    var p := PrevEntry(rows, rows[i].sequence);
    if p.Some? {
      var j :| 0 <= j < |rows| && rows[j] == p.value;
      assert j < i;
      assert rows[i - 1] in rows && rows[i - 1].sequence < rows[i].sequence;
    } else if i > 0 {
      assert rows[i - 1] in rows;
    }
  }

  /** Above every row, the entry before is the last row. */
  lemma PrevOfNext(rows: seq<WitnessEntry>, sequence: nat)
    requires Increasing(rows) && forall e :: e in rows ==> e.sequence < sequence
    ensures PrevEntry(rows, sequence) == if rows == [] then None else Some(rows[|rows| - 1])
  {
    hide PrevEntry;
    if rows != [] {
      var n := |rows| - 1;
      assert rows[n] in rows;
      var p := PrevEntry(rows, sequence);
      var j :| 0 <= j < |rows| && rows[j] == p.value;
    }
  }

  /** The four outcomes, for any load order: each is decided by what the ledger holds. */
  lemma DecideMeans(rows: seq<WitnessEntry>, sequence: nat, tip: Bytes)
    requires Distinct(rows)
    ensures var d := Decide(rows, sequence, tip);
            && (d.Record? <==> forall e :: e in rows ==> e.sequence < sequence)
            && (d.Replay? <==> exists e :: e in rows && e.sequence == sequence && e.tip == tip)
            && (d.Replay? ==> d.existing in rows && d.existing.sequence == sequence && d.existing.tip == tip)
            && (d.Fork? <==> exists e :: e in rows && e.sequence == sequence && e.tip != tip)
            && (d.Fork? ==> exists e :: e in rows && e.sequence == sequence && e.tip == d.existingTip)
            && (d.Rollback? <==> (exists e :: e in rows && e.sequence > sequence) && forall e :: e in rows ==> e.sequence != sequence)
            && (d.Rollback? ==> forall e :: e in rows ==> e.sequence <= d.maxSequence)
            && (d.Rollback? ==> exists e :: e in rows && e.sequence == d.maxSequence)
  {
    hide Find, MaxSequence, PrevEntry;
    var found := Find(rows, sequence);
    if found.Some? {
      forall e | e in rows && e.sequence == sequence ensures e == found.value {
        OneRowPerSequence(rows, e, found.value);
      }
    } else if MaxSequence(rows).Some? {
      var e :| e in rows && e.sequence == MaxSequence(rows).value;
    }
  }
}
