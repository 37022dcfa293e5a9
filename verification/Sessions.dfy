/**
 The server's session table, which drops expired sessions whenever one is looked up, and the session
 key both ends of the handshake derive.
 */
module Sessions {
  import opened Text
  import opened Primitives

  const SESSION_TIMEOUT: nat := 1800
  const FUTURE_TOLERANCE: nat := 5
  const PAST_TOLERANCE: nat := 300

  datatype Session = Session(id: Bytes, clientKey: Bytes, identity: Bytes, createdAt: nat, expiresAt: nat,
                             authenticated: bool, sessionKey: Bytes)

  type Table = map<Bytes, Session>

  // ── The session key ────────────────────────────────────────────────────────

  /** Byte-wise order of two arrays. */
  predicate Less(a: Bytes, b: Bytes) {
    if a == [] || b == [] then a == [] && b != []
    else a[0] < b[0] || (a[0] == b[0] && Less(a[1..], b[1..]))
  }

  lemma {:induction false} LessTotal(a: Bytes, b: Bytes)
    requires a != b
    ensures Less(a, b) <==> !Less(b, a)
  {
    if a != [] && b != [] && a[0] == b[0] {
      assert a == [a[0]] + a[1..] && b == [b[0]] + b[1..];
      LessTotal(a[1..], b[1..]);
    }
  }

  /** `derive_session_key`; `kdf` stands for BLAKE3's `derive_key` under its fixed context string. */
  function SessionKey(c: Crypto, kdf: Bytes -> Bytes, mine: Bytes, theirPub: Bytes, challenge: Bytes): Option<Bytes> {
    if AllZero(c.dh(mine, theirPub)) then None
    else if Less(c.publicOf(mine), theirPub)
    then Some(kdf(c.dh(mine, theirPub) + challenge + c.publicOf(mine) + theirPub))
    else Some(kdf(c.dh(mine, theirPub) + challenge + theirPub + c.publicOf(mine)))
  }

  /** Client and server derive the same key, or both refuse. */
  lemma BothEndsAgree(c: Crypto, kdf: Bytes -> Bytes, client: Bytes, server: Bytes, challenge: Bytes)
    requires AgreementLaws(c)
    ensures SessionKey(c, kdf, client, c.publicOf(server), challenge)
         == SessionKey(c, kdf, server, c.publicOf(client), challenge)
  {
    hide Less, AllZero;
    if c.publicOf(client) != c.publicOf(server) {
      LessTotal(c.publicOf(client), c.publicOf(server));
    }
  }

  /** Two different inputs of the derivation with one key. */
  ghost predicate KdfCollides(kdf: Bytes -> Bytes, x: Bytes, y: Bytes) { x != y && kdf(x) == kdf(y) }

  /**
   A session key stands for one shared secret, one challenge and one pair of identities: a handshake that
   differs in any of them has another key, or the derivation collides. Secrets, challenges and keys have
   fixed lengths.
   */
  lemma SessionKeyBinds(c: Crypto, kdf: Bytes -> Bytes, a: Bytes, b: Bytes, challenge: Bytes, a': Bytes, b': Bytes, challenge': Bytes)
    returns (x: Bytes, y: Bytes)
    requires SessionKey(c, kdf, a, b, challenge).Some?
    requires SessionKey(c, kdf, a, b, challenge) == SessionKey(c, kdf, a', b', challenge')
    requires |c.dh(a, b)| == |c.dh(a', b')| && |challenge| == |challenge'|
    requires |c.publicOf(a)| == |b| == |c.publicOf(a')| == |b'|
    ensures || KdfCollides(kdf, x, y)
            || (c.dh(a, b) == c.dh(a', b') && challenge == challenge' && {c.publicOf(a), b} == {c.publicOf(a'), b'})
  {
    hide Less, AllZero, SessionKey;
    x, y := Material(c, a, b, challenge), Material(c, a', b', challenge');
    SessionKeyMeans(c, kdf, a, b, challenge);
    SessionKeyMeans(c, kdf, a', b', challenge');
    if x == y {
      MaterialParts(c, a, b, challenge);
      MaterialParts(c, a', b', challenge');
    }
  }

  /** What goes into the derivation: secret, challenge, the smaller public key, the larger one. */
  function Material(c: Crypto, mine: Bytes, theirPub: Bytes, challenge: Bytes): Bytes {
    var own := c.publicOf(mine);
    c.dh(mine, theirPub) + challenge + if Less(own, theirPub) then own + theirPub else theirPub + own
  }

  /** A key is derived exactly when the shared secret is not zero, and from the whole material. */
  lemma SessionKeyMeans(c: Crypto, kdf: Bytes -> Bytes, mine: Bytes, theirPub: Bytes, challenge: Bytes)
    ensures SessionKey(c, kdf, mine, theirPub, challenge) ==
            if exists i :: 0 <= i < |c.dh(mine, theirPub)| && c.dh(mine, theirPub)[i] as int != 0
            then Some(kdf(Material(c, mine, theirPub, challenge))) else None
  {
    hide Less;
    var dh, own := c.dh(mine, theirPub), c.publicOf(mine);
    assert dh + challenge + own + theirPub == dh + challenge + (own + theirPub);
    assert dh + challenge + theirPub + own == dh + challenge + (theirPub + own);
  }

  lemma MaterialParts(c: Crypto, mine: Bytes, theirPub: Bytes, challenge: Bytes)
    requires |c.publicOf(mine)| == |theirPub|
    ensures var m, i := Material(c, mine, theirPub, challenge), |c.dh(mine, theirPub)|;
            var j := i + |challenge|;
            && |m| == j + 2 * |theirPub| && m[..i] == c.dh(mine, theirPub) && m[i..j] == challenge
            && {m[j..j + |theirPub|], m[j + |theirPub|..]} == {c.publicOf(mine), theirPub}
  {
    hide Less;
    var own, dh := c.publicOf(mine), c.dh(mine, theirPub);
    var m, j := Material(c, mine, theirPub, challenge), |dh| + |challenge|;
    assert m[..|dh|] == dh && m[|dh|..j] == challenge;
    if Less(own, theirPub) {
      assert m[j..j + |theirPub|] == own && m[j + |theirPub|..] == theirPub;
    } else {
      assert m[j..j + |theirPub|] == theirPub && m[j + |theirPub|..] == own;
    }
  }

  // ── The table ──────────────────────────────────────────────────────────────

  datatype Response = Response(clientKey: Bytes, identity: Bytes, signature: Bytes, timestamp: nat)

  /** `authenticate_client` up to storing: the session, or a refusal. */
  function Admit(c: Crypto, kdf: Bytes -> Bytes, server: Bytes, challenge: Bytes, r: Response, id: Bytes, now: nat)
    : (s: Option<Session>)
    ensures s.Some? <==> && now <= r.timestamp + 300 && r.timestamp <= now + 5
                         && c.verifies(r.clientKey, challenge, r.signature)
                         && SessionKey(c, kdf, server, r.clientKey, challenge).Some?
    ensures s.Some? ==> Some(s.value.sessionKey) == SessionKey(c, kdf, server, r.clientKey, challenge)
    ensures s.Some? ==> s.value.clientKey == r.clientKey && s.value.expiresAt == now + 30 * 60
    ensures s.Some? ==> s.value.id == id && s.value.identity == r.identity && s.value.createdAt == now && s.value.authenticated
  {
    if r.timestamp > now + FUTURE_TOLERANCE || now > r.timestamp + PAST_TOLERANCE then None
    else if !c.verifies(r.clientKey, challenge, r.signature) then None
    else
      var key := SessionKey(c, kdf, server, r.clientKey, challenge);
      if key.None? then None
      else Some(Session(id, r.clientKey, r.identity, now, now + SESSION_TIMEOUT, true, key.value))
  }

  /** `cleanup_expired_sessions`. */
  function Live(t: Table, now: nat): Table { map id | id in t && now < t[id].expiresAt :: t[id] }

  /** What a lookup answers from a table. */
  function Valid(t: Table, id: Bytes, now: nat): Option<Session> {
    if id in t && t[id].authenticated && now < t[id].expiresAt then Some(t[id]) else None
  }

  /** A lookup finds exactly an authenticated session before its expiry. */
  lemma ValidMeans(t: Table, id: Bytes, now: nat, s: Session)
    ensures Valid(t, id, now) == Some(s) <==> id in t && t[id] == s && s.authenticated && now < s.expiresAt
  {
  }

  /** One call, with the clock readings it makes. */
  datatype Call =
    | Store(session: Session, at: nat)
    | Validate(id: Bytes, cleanedAt: nat, checkedAt: nat)
    | Remove(id: Bytes)
    | Cleanup(at: nat)

  function Next(t: Table, call: Call): Table {
    match call
    case Store(s, _) => t[s.id := s]
    case Validate(_, at, _) => Live(t, at)
    case Remove(id) => t - {id}
    case Cleanup(at) => Live(t, at)
  }

  function Answer(t: Table, call: Call): Option<Session> {
    match call
    case Store(s, _) => Some(s)
    case Validate(id, at, now) => Valid(Live(t, at), id, now)
    case _ => None
  }

  /** The same calls on a table that never drops anything by itself. */
  function NextKept(t: Table, call: Call): Table {
    match call
    case Store(s, _) => t[s.id := s]
    case Remove(id) => t - {id}
    case _ => t
  }

  function AnswerKept(t: Table, call: Call): Option<Session> {
    match call
    case Store(s, _) => Some(s)
    case Validate(id, _, now) => Valid(t, id, now)
    case _ => None
  }

  /** The table after the first `i` calls. */
  function TableAt(calls: seq<Call>, i: nat): Table
    requires i <= |calls|
  {
    if i == 0 then map[] else Next(TableAt(calls, i - 1), calls[i - 1])
  }

  function KeptAt(calls: seq<Call>, i: nat): Table
    requires i <= |calls|
  {
    if i == 0 then map[] else NextKept(KeptAt(calls, i - 1), calls[i - 1])
  }

  function Answers(calls: seq<Call>): seq<Option<Session>> {
    seq(|calls|, i requires 0 <= i < |calls| => Answer(TableAt(calls, i), calls[i]))
  }

  function AnswersKept(calls: seq<Call>): seq<Option<Session>> {
    seq(|calls|, i requires 0 <= i < |calls| => AnswerKept(KeptAt(calls, i), calls[i]))
  }

  /** When a call drops expired sessions, if it does. */
  function SweepTime(call: Call): Option<nat> {
    match call
    case Validate(_, at, _) => Some(at)
    case Cleanup(at) => Some(at)
    case _ => None
  }

  /** Call `j` swept the session that would still be stored under `id` after `n` calls, and it was not stored anew. */
  predicate SweptAway(calls: seq<Call>, j: nat, n: nat, id: Bytes)
    requires n <= |calls|
  {
    && j < n && id in KeptAt(calls, n)
    && SweepTime(calls[j]).Some? && KeptAt(calls, n)[id].expiresAt <= SweepTime(calls[j]).value
    && forall m :: j < m < n ==> !(calls[m].Store? && calls[m].session.id == id)
  }

  lemma {:induction false} OnlySweptMissing(calls: seq<Call>, n: nat, id: Bytes)
    requires n <= |calls|
    ensures id in TableAt(calls, n) ==> id in KeptAt(calls, n) && KeptAt(calls, n)[id] == TableAt(calls, n)[id]
    ensures id in KeptAt(calls, n) ==> (id !in TableAt(calls, n) <==> exists j :: SweptAway(calls, j, n, id))
  {
    if n > 0 {
      var call, k := calls[n - 1], n - 1;
      OnlySweptMissing(calls, k, id);
      if id in KeptAt(calls, n) && !(call.Store? && call.session.id == id) {
        assert KeptAt(calls, n)[id] == KeptAt(calls, k)[id];
        forall j: nat | SweptAway(calls, j, k, id) ensures SweptAway(calls, j, n, id) { }
        forall j: nat | SweptAway(calls, j, n, id) && j < k ensures SweptAway(calls, j, k, id) { }
        if SweepTime(call).Some? && KeptAt(calls, n)[id].expiresAt <= SweepTime(call).value {
          assert SweptAway(calls, k, n, id);
        }
      }
    }
  }

  /** Call `i` looks up, before its expiry, a session that call `j` swept at or after its expiry. */
  predicate Revived(calls: seq<Call>, j: nat, i: nat) {
    && j <= i < |calls| && calls[i].Validate?
    && SweptAway(calls, j, i + 1, calls[i].id)
    && Valid(KeptAt(calls, i + 1), calls[i].id, calls[i].checkedAt).Some?
  }

  lemma ValidateAnswers(calls: seq<Call>, i: nat)
    requires i < |calls| && calls[i].Validate?
    ensures Answers(calls)[i] == Valid(TableAt(calls, i + 1), calls[i].id, calls[i].checkedAt)
    ensures AnswersKept(calls)[i] == Valid(KeptAt(calls, i + 1), calls[i].id, calls[i].checkedAt)
  {
  }

  lemma OtherAnswers(calls: seq<Call>, i: nat)
    requires i < |calls| && !calls[i].Validate?
    ensures Answers(calls)[i] == AnswersKept(calls)[i]
  {
    hide TableAt, KeptAt;
  }

  lemma SweptWasKept(calls: seq<Call>, j: nat, n: nat, id: Bytes)
    requires n <= |calls| && SweptAway(calls, j, n, id)
    ensures j < n && id in KeptAt(calls, n)
  {
    hide KeptAt;
  }

  lemma AnswerDiffers(calls: seq<Call>, i: nat)
    requires i < |calls|
    ensures Answers(calls)[i] != AnswersKept(calls)[i] <==> exists j :: Revived(calls, j, i)
  {
    if calls[i].Validate? {
      hide Answers, AnswersKept, TableAt, KeptAt, SweptAway;
      var id, n := calls[i].id, i + 1;
      OnlySweptMissing(calls, n, id);
      ValidateAnswers(calls, i);
      if exists j :: Revived(calls, j, i) {
        var j :| Revived(calls, j, i);
        assert SweptAway(calls, j, n, id);
        SweptWasKept(calls, j, n, id);
      } else if id in KeptAt(calls, n) && exists j :: SweptAway(calls, j, n, id) {
        var j :| SweptAway(calls, j, n, id);
        SweptWasKept(calls, j, n, id);
        assert !Revived(calls, j, i);
      }
    } else {
      OtherAnswers(calls, i);
    }
  }

  lemma RevivedPlace(calls: seq<Call>, j: nat, i: nat)
    requires Revived(calls, j, i)
    ensures j <= i < |calls|
  {
    hide SweptAway, KeptAt;
  }

  /** A lookup like that reads an earlier time than the sweep did. */
  lemma RevivalStepsBack(calls: seq<Call>, j: nat, i: nat)
    requires Revived(calls, j, i)
    ensures !NeverBackwards(calls)
  {
    hide KeptAt;
    assert SweepTime(calls[j]).value in Readings(calls[j]) && calls[i].checkedAt in Readings(calls[i]);
    assert calls[i].checkedAt < SweepTime(calls[j]).value;
  }

  /**
   Dropping expired sessions shows in an answer if and only if a session swept at or after its expiry
   is looked up before its expiry: the clock stepped back across the expiry in between.
   */
  lemma CleanupVisibleExactly(calls: seq<Call>)
    ensures Answers(calls) != AnswersKept(calls) <==> exists i, j :: Revived(calls, j, i)
  {
    hide Revived;
    if Answers(calls) != AnswersKept(calls) {
      var i :| 0 <= i < |calls| && Answers(calls)[i] != AnswersKept(calls)[i];
      AnswerDiffers(calls, i);
    }
    if exists i, j :: Revived(calls, j, i) {
      var i, j :| Revived(calls, j, i);
      RevivedPlace(calls, j, i);
      AnswerDiffers(calls, i);
    }
  }

  /** The clock readings of a call, in order. */
  function Readings(call: Call): seq<nat> {
    match call
    case Store(_, at) => [at]
    case Validate(_, at, now) => [at, now]
    case Remove(_) => []
    case Cleanup(at) => [at]
  }

  predicate NeverBackwards(calls: seq<Call>) {
    && (forall i :: 0 <= i < |calls| && calls[i].Validate? ==> calls[i].cleanedAt <= calls[i].checkedAt)
    && forall i, j, x, y :: 0 <= i < j < |calls| && x in Readings(calls[i]) && y in Readings(calls[j]) ==> x <= y
  }

  /** As long as the clock never runs backwards, dropping expired sessions changes no answer of any run. */
  lemma CleanupInvisible(calls: seq<Call>)
    requires NeverBackwards(calls)
    ensures Answers(calls) == AnswersKept(calls)
  {
    CleanupVisibleExactly(calls);
    if Answers(calls) != AnswersKept(calls) {
      hide Revived, NeverBackwards;
      var i, j :| Revived(calls, j, i);
      RevivalStepsBack(calls, j, i);
    }
  }

  /** A clock that steps back over a session's expiry: the session is gone that would be valid again. */
  lemma ClockStepBackIsVisible(s: Session, late: nat, early: nat)
    requires s.authenticated && early < s.expiresAt <= late
    ensures var calls := [Store(s, 0), Cleanup(late), Validate(s.id, early, early)];
            Answers(calls) != AnswersKept(calls)
  {
    var calls := [Store(s, 0), Cleanup(late), Validate(s.id, early, early)];
    assert KeptAt(calls, 1) == map[s.id := s];
    assert KeptAt(calls, 2) == KeptAt(calls, 1) && KeptAt(calls, 3) == KeptAt(calls, 2);
    assert Revived(calls, 1, 2);
    CleanupVisibleExactly(calls);
  }

  /** The server's table and key. */
  class SessionManager {
    var sessions: Table
    const key: Bytes

    constructor (key: Bytes)
      ensures sessions == map[] && this.key == key
    {
      this.key := key;
      sessions := map[];
    }

    method AuthenticateClient(c: Crypto, kdf: Bytes -> Bytes, challenge: Bytes, r: Response, id: Bytes, now: nat)
      returns (s: Option<Session>)
      modifies this
      ensures s == Admit(c, kdf, key, challenge, r, id, now)
      ensures sessions == if s.Some? then Next(old(sessions), Store(s.value, now)) else old(sessions)
      ensures s.Some? ==> s.value.id == id && Valid(sessions, id, now) == s
    {
      s := Admit(c, kdf, key, challenge, r, id, now);
      if s.Some? { sessions := sessions[id := s.value]; }
    }

    method ValidateSession(id: Bytes, cleanedAt: nat, checkedAt: nat) returns (s: Option<Session>)
      modifies this
      ensures sessions == Next(old(sessions), Validate(id, cleanedAt, checkedAt))
      ensures s == Answer(old(sessions), Validate(id, cleanedAt, checkedAt))
      ensures s.Some? <==> && id in old(sessions) && old(sessions)[id].authenticated
                           && cleanedAt < old(sessions)[id].expiresAt && checkedAt < old(sessions)[id].expiresAt
      ensures s.Some? ==> s.value == old(sessions)[id]
    {
      CleanupExpiredSessions(cleanedAt);
      s := Valid(sessions, id, checkedAt);
    }

    method RemoveSession(id: Bytes)
      modifies this
      ensures sessions == Next(old(sessions), Remove(id))
      ensures forall x :: x in sessions <==> x in old(sessions) && x != id
      ensures forall x :: x in sessions ==> sessions[x] == old(sessions)[x]
      ensures forall at: nat :: Valid(sessions, id, at).None?
    {
      sessions := sessions - {id};
    }

    method CleanupExpiredSessions(now: nat)
      modifies this
      ensures sessions == Next(old(sessions), Cleanup(now))
      ensures forall x :: x in sessions <==> x in old(sessions) && now < old(sessions)[x].expiresAt
      ensures forall x :: x in sessions ==> sessions[x] == old(sessions)[x]
      ensures forall x, at: nat :: now <= at ==> Valid(sessions, x, at) == Valid(old(sessions), x, at)
    {
      sessions := Live(sessions, now);
    }
  }
}
