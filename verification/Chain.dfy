/**
 The continuity chain of an archive: each chunk's hash is folded into a running value that starts
 from a fixed genesis seed.
 */
module Chain {
  import opened Text
  import opened Primitives

  const GENESIS_SEED: Bytes := "sealedge:genesis"

  function Genesis(c: Crypto): Bytes { c.hash(GENESIS_SEED) }

  function ChainNext(c: Crypto, prev: Bytes, curr: Bytes): Bytes { c.hash(prev + curr) }

  datatype ChainSegment = ChainSegment(index: nat, storedHash: Bytes, storedContinuity: Bytes)

  /** The running value after the first `k` chunk hashes. */
  function Continuity(c: Crypto, hashes: seq<Bytes>, k: nat): Bytes
    requires k <= |hashes|
  {
    if k == 0 then Genesis(c) else ChainNext(c, Continuity(c, hashes, k - 1), hashes[k - 1])
  }

  lemma {:induction false} ContinuityPrefix(c: Crypto, a: seq<Bytes>, b: seq<Bytes>, k: nat)
    requires k <= |a| && k <= |b| && forall i :: 0 <= i < k ==> a[i] == b[i]
    ensures Continuity(c, a, k) == Continuity(c, b, k)
  {
    if k > 0 { ContinuityPrefix(c, a, b, k - 1); }
  }

  function StoredHashes(segments: seq<ChainSegment>): (hs: seq<Bytes>)
    ensures |hs| == |segments|
    ensures forall i :: 0 <= i < |segments| ==> hs[i] == segments[i].storedHash
  {
    seq(|segments|, i requires 0 <= i < |segments| => segments[i].storedHash)
  }

  /** Every stored continuity value is the fold of the hashes up to it, and indices count from 0. */
  predicate IsRunningFold(c: Crypto, segments: seq<ChainSegment>) {
    forall i :: 0 <= i < |segments| ==>
      && segments[i].index == i
      && segments[i].storedContinuity == Continuity(c, StoredHashes(segments), i + 1)
  }

  datatype ChainVerdict = ChainOk | Gap(at: nat) | OutOfOrder(at: nat)

  /** `validate_chain`: acceptance is the running fold; a refusal names the first bad segment. */
  method ValidateChain(c: Crypto, segments: seq<ChainSegment>) returns (v: ChainVerdict)
    ensures v.ChainOk? <==> IsRunningFold(c, segments)
    ensures v.Gap? ==> v.at < |segments| && segments[v.at].index != v.at &&
                       forall i :: 0 <= i < v.at ==> segments[i].index == i
    ensures v.OutOfOrder? ==>
              && v.at < |segments|
              && (forall i :: 0 <= i < |segments| ==> segments[i].index == i)
              && segments[v.at].storedContinuity != Continuity(c, StoredHashes(segments), v.at + 1)
              && forall i :: 0 <= i < v.at ==> segments[i].storedContinuity == Continuity(c, StoredHashes(segments), i + 1)
  {
    if |segments| == 0 { return ChainOk; }
    for i := 0 to |segments|
      invariant forall k :: 0 <= k < i ==> segments[k].index == k
    {
      if segments[i].index != i { return Gap(i); }
    }
    var expected := Genesis(c);
    ghost var hs := StoredHashes(segments);
    for i := 0 to |segments|
      invariant expected == Continuity(c, hs, i)
      invariant forall k :: 0 <= k < i ==> segments[k].storedContinuity == Continuity(c, hs, k + 1)
    {
      expected := ChainNext(c, expected, segments[i].storedHash);
      if expected != segments[i].storedContinuity { return OutOfOrder(i); }
    }
    return ChainOk;
  }

  ghost predicate AreDigests(hs: seq<Bytes>) {
    forall i :: 0 <= i < |hs| ==> |hs[i]| == DIGEST_LEN
  }

  /**
   One continuity value stands for one list of chunk hashes; if not, two colliding messages are
   produced. The empty list is covered: the 16-byte seed is never a 64-byte link.
   */
  lemma {:induction false} ContinuityBinds(c: Crypto, a: seq<Bytes>, j: nat, b: seq<Bytes>, k: nat) returns (x: Bytes, y: Bytes)
    requires HashLaws(c) && AreDigests(a) && AreDigests(b) && j <= |a| && k <= |b|
    requires Continuity(c, a, j) == Continuity(c, b, k)
    ensures a[..j] == b[..k] || Collides(c, x, y)
    decreases j
  {
    x, y := "", "";
    if j == 0 && k == 0 {
    } else if j == 0 {
      x, y := GENESIS_SEED, Continuity(c, b, k - 1) + b[k - 1];
      assert |x| == 16;
    } else if k == 0 {
      x, y := Continuity(c, a, j - 1) + a[j - 1], GENESIS_SEED;
      assert |y| == 16;
    } else {
      x, y := Continuity(c, a, j - 1) + a[j - 1], Continuity(c, b, k - 1) + b[k - 1];
      if x == y {
        SameHalves(Continuity(c, a, j - 1), a[j - 1], Continuity(c, b, k - 1), b[k - 1]);
        x, y := ContinuityBinds(c, a, j - 1, b, k - 1);
        assert a[..j] == a[..j - 1] + [a[j - 1]] && b[..k] == b[..k - 1] + [b[k - 1]];
      }
    }
  }

  lemma SameHalves(p: Bytes, q: Bytes, p': Bytes, q': Bytes)
    requires |p| == |p'| && p + q == p' + q'
    ensures p == p' && q == q'
  {
    assert p == (p + q)[..|p|] && p' == (p' + q')[..|p|];
    assert q == (p + q)[|p|..] && q' == (p' + q')[|p|..];
  }

  /** Two accepted segment lists that end in one continuity value are the same list, or collide. */
  lemma AcceptedChainsBind(c: Crypto, a: seq<ChainSegment>, b: seq<ChainSegment>) returns (x: Bytes, y: Bytes)
    requires HashLaws(c) && AreDigests(StoredHashes(a)) && AreDigests(StoredHashes(b))
    requires a != [] && b != [] && IsRunningFold(c, a) && IsRunningFold(c, b)
    requires a[|a| - 1].storedContinuity == b[|b| - 1].storedContinuity
    ensures a == b || Collides(c, x, y)
  {
    var ha, hb := StoredHashes(a), StoredHashes(b);
    x, y := ContinuityBinds(c, ha, |a|, hb, |b|);
    assert ha[..|a|] == ha && hb[..|b|] == hb;
    if ha == hb {
      forall i | 0 <= i < |a| ensures a[i] == b[i] {
        assert a[i].storedHash == ha[i] && b[i].storedHash == hb[i];
      }
    }
  }
}
