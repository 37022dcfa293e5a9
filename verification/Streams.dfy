/**
 Incremental input: a reader that may return fewer bytes than asked for, the loop that turns it
 into fixed-size buffers, and the simple split of a whole payload that loop must agree with.
 */
module Streams {
  import opened Text

  function Min(a: nat, b: nat): nat { if a < b then a else b }

  /** An input of known content. `Read` may be short, and is empty only at the end of the input. */
  class Reader {
    const data: Bytes
    var pos: nat

    ghost predicate Valid()
      reads this
    {
      pos <= |data|
    }

    constructor (data: Bytes)
      ensures Valid() && this.data == data && pos == 0
    {
      this.data := data;
      pos := 0;
    }

    /** Fills a non-empty part of `buf[from..]` unless there is no room or no input left. */
    method Read(buf: array<char>, from: nat) returns (n: nat)
      requires Valid() && from <= buf.Length
      modifies this`pos, buf
      ensures Valid() && pos == old(pos) + n && from + n <= buf.Length
      ensures n == 0 <==> from == buf.Length || old(pos) == |data|
      ensures buf[from..from + n] == data[old(pos)..pos]
      ensures buf[..from] == old(buf[..from])
    {
      var most := Min(buf.Length - from, |data| - pos);
      n :| 0 <= n <= most && (n == 0 <==> most == 0);
      forall i | 0 <= i < n { buf[from + i] := data[pos + i]; }
      pos := pos + n;
    }
  }

  /** `read_exact_or_eof`: the next `size` bytes, or what is left, for any pattern of short reads. */
  method ReadExactOrEof(r: Reader, size: nat) returns (out: Bytes)
    requires r.Valid()
    modifies r`pos
    ensures r.Valid() && r.pos == Min(old(r.pos) + size, |r.data|)
    ensures out == r.data[old(r.pos)..r.pos]
  {
    var buf := new char[size];
    var filled := 0;
    while filled < size
      invariant r.Valid() && filled <= size && r.pos == old(r.pos) + filled
      invariant buf[..filled] == r.data[old(r.pos)..r.pos]
      decreases size - filled
    {
      ghost var start, at := old(r.pos), r.pos;
      ghost var had := buf[..filled];
      var n := r.Read(buf, filled);
      if n == 0 { break; }
      assert buf[..filled + n] == had + buf[filled..filled + n];
      assert r.data[start..r.pos] == r.data[start..at] + r.data[at..r.pos];
      filled := filled + n;
    }
    out := buf[..filled];
  }

  /** `slice::chunks(size)`: full pieces and one shorter piece at the end. */
  function Split(data: Bytes, size: nat): (pieces: seq<Bytes>)
    requires size > 0
    ensures data == [] <==> pieces == []
    decreases |data|
  {
    if data == [] then [] else [data[..Min(size, |data|)]] + Split(data[Min(size, |data|)..], size)
  }

  function Concat(pieces: seq<Bytes>): Bytes {
    if pieces == [] then "" else pieces[0] + Concat(pieces[1..])
  }

  lemma {:induction false} ConcatAppend(pieces: seq<Bytes>, last: Bytes)
    ensures Concat(pieces + [last]) == Concat(pieces) + last
  {
    if pieces == [] {
      assert pieces + [last] == [last];
      assert Concat([last]) == last + Concat([last][1..]);
    } else {
      assert (pieces + [last])[1..] == pieces[1..] + [last];
      ConcatAppend(pieces[1..], last);
    }
  }

  /** Splitting loses nothing, and every piece but the last is full. */
  lemma {:induction false} SplitPieces(data: Bytes, size: nat)
    requires size > 0
    ensures Concat(Split(data, size)) == data
    ensures forall i :: 0 <= i < |Split(data, size)| ==> 0 < |Split(data, size)[i]| <= size
    ensures forall i :: 0 <= i < |Split(data, size)| - 1 ==> |Split(data, size)[i]| == size
    decreases |data|
  {
    if data != [] {
      var k := Min(size, |data|);
      var rest := Split(data[k..], size);
      SplitPieces(data[k..], size);
      assert Split(data, size) == [data[..k]] + rest;
      assert Split(data, size)[1..] == rest;
      forall i | 0 < i < |Split(data, size)|
        ensures Split(data, size)[i] == rest[i - 1]
      {
      }
      assert |Split(data, size)| > 1 ==> data[k..] != [];
    }
  }

  /** The number of pieces is the length divided by the size, rounded up. */
  lemma {:induction false} SplitCount(data: Bytes, size: nat)
    requires size > 0
    ensures |Split(data, size)| * size >= |data|
    ensures |Split(data, size)| > 0 ==> (|Split(data, size)| - 1) * size < |data|
    decreases |data|
  {
    if data != [] {
      var k := Min(size, |data|);
      SplitCount(data[k..], size);
      var n := |Split(data[k..], size)|;
      assert |Split(data, size)| == n + 1;
      assert (n + 1) * size == n * size + size;
      if n > 0 { assert n * size == (n - 1) * size + size; }
    }
  }

  /** Taking one more buffer from the front matches taking one more piece. */
  lemma SplitFrom(data: Bytes, size: nat, pos: nat)
    requires size > 0 && pos < |data|
    ensures Split(data[pos..], size) ==
            [data[pos..Min(pos + size, |data|)]] + Split(data[Min(pos + size, |data|)..], size)
  {
    var d := data[pos..];
    var k := Min(size, |d|);
    assert d[..k] == data[pos..pos + k];
    assert d[k..] == data[pos + k..];
  }
}
