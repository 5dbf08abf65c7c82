/** Replay protection of user-signed deletes (api/delete.go): the drift window and the nonce cache. */
module DeleteReplay {
  import opened Basics
  import opened Coverage
  import Store

  const MINUTE: Time := 60_000_000_000
  const DRIFT: Time := 5 * MINUTE
  const TTL: Time := 15 * MINUTE
  const NUL: byte := 0

  type Key = Text

  /** The cache key of a nonce: a NUL keeps the two halves apart. */
  function KeyOf(pubkey: Text, nonce: Text): Key {
    pubkey + [NUL] + nonce
  }

  /** Two owners never share a cache entry: a stored key is base64 text, which holds no NUL. */
  lemma KeysDiffer(pubkey: Text, nonce: Text, pubkey': Text, nonce': Text)
    requires NUL !in pubkey && NUL !in pubkey' && KeyOf(pubkey, nonce) == KeyOf(pubkey', nonce')
    ensures pubkey == pubkey' && nonce == nonce'
  {
    var t := KeyOf(pubkey, nonce);
    assert t[|pubkey|] == NUL && t[|pubkey'|] == NUL;
    assert forall i :: 0 <= i < |pubkey| ==> t[i] == pubkey[i];
    assert forall i :: 0 <= i < |pubkey'| ==> t[i] == pubkey'[i];
    assert pubkey == t[..|pubkey|] && pubkey' == t[..|pubkey'|];
    assert nonce == t[|pubkey| + 1..] && nonce' == t[|pubkey'| + 1..];
  }

  // ----- the cache -----

  type Entries = map<Key, Time>

  /** Over 256 entries, the lapsed ones go before the lookup. */
  function Pruned(m: Entries, now: Time): Entries {
    if |m| > 256 then map k | k in m && now <= m[k] :: m[k] else m
  }

  /** A replay: the key is known and has not expired. */
  predicate Seen(m: Entries, key: Key, now: Time) {
    var p := Pruned(m, now);
    key in p && now < p[key]
  }

  function Checked(m: Entries, key: Key, now: Time): Entries {
    if Seen(m, key, now) then Pruned(m, now) else Pruned(m, now)[key := now + TTL]
  }

  class NonceCache {
    var entries: Entries

    constructor ()
      ensures entries == map[]
    {
      entries := map[];
    }

    method Check(pubkey: Text, nonce: Text, now: Time) returns (seen: bool)
      modifies this
      ensures seen == Seen(old(entries), KeyOf(pubkey, nonce), now)
      ensures entries == Checked(old(entries), KeyOf(pubkey, nonce), now)
    {
      if |entries| > 256 {
        Prune(now);
      }
      var key := pubkey + [NUL] + nonce;
      if key in entries {
        if now < entries[key] {
          return true;
        }
      }
      entries := entries[key := now + TTL];
      return false;
    }

    /** The sweep: every entry is looked at once, in any order, and deleted if it has expired. */
    method Prune(now: Time)
      modifies this
      ensures entries == map k | k in old(entries) && now <= old(entries)[k] :: old(entries)[k]
    {
      var rest := entries.Keys;
      while rest != {}
        invariant rest <= old(entries).Keys
        invariant entries == map k | k in old(entries) && (k in rest || now <= old(entries)[k]) :: old(entries)[k]
        decreases rest
      {
        var k :| k in rest;
        if now > entries[k] {
          entries := entries - {k};
        }
        rest := rest - {k};
      }
    }
  }

  // ----- runs -----

  /** One signed command that reached the clock check, with the time read for it. */
  datatype Attempt = Attempt(key: Key, issuedAt: Time, now: Time)

  predicate WithinDrift(a: Attempt) {
    -DRIFT <= a.now - a.issuedAt <= DRIFT
  }

  /** Only attempts within the drift window reach the cache. */
  function After(m: Entries, a: Attempt): Entries {
    if WithinDrift(a) then Checked(m, a.key, a.now) else m
  }

  predicate Accepted(m: Entries, a: Attempt) {
    WithinDrift(a) && !Seen(m, a.key, a.now)
  }

  function Replay(attempts: seq<Attempt>): Entries {
    if attempts == [] then map[]
    else After(Replay(attempts[..|attempts| - 1]), attempts[|attempts| - 1])
  }

  /** Attempt number i of a process's life was accepted. */
  predicate AcceptedAt(attempts: seq<Attempt>, i: nat)
    requires i < |attempts|
  {
    Accepted(Replay(attempts[..i]), attempts[i])
  }

  /** No attempt reads a clock more than five minutes behind an earlier one. */
  ghost predicate ClockSteady(attempts: seq<Attempt>) {
    forall i, j :: 0 <= i < j < |attempts| ==> attempts[j].now >= attempts[i].now - DRIFT
  }

  /**
   * What the cache remembers of a command accepted at place i: an entry that lasts, or else a clock
   * has already been read that is past the entry's life, and the command is stale for good.
   */
  lemma {:induction false} Remembered(attempts: seq<Attempt>, i: nat)
    requires i < |attempts| && AcceptedAt(attempts, i)
    ensures var m := Replay(attempts);
            || (attempts[i].key in m && m[attempts[i].key] >= attempts[i].now + TTL)
            || exists k :: i < k < |attempts| && attempts[k].now > attempts[i].now + TTL
    decreases |attempts|
  {
    var n := |attempts| - 1;
    var before := attempts[..n];
    if i < n {
      assert before[..i] == attempts[..i];
      Remembered(before, i);
      if exists k :: i < k < |before| && before[k].now > before[i].now + TTL {
        var k :| i < k < |before| && before[k].now > before[i].now + TTL;
        assert attempts[k].now > attempts[i].now + TTL;
      } else if attempts[n].now <= attempts[i].now + TTL {
        PruneKeeps(Replay(before), attempts[i].key, attempts[i].now + TTL, attempts[n].now);
      }
    }
  }

  /** An entry leaves, or is replaced, only once its life is over; a replacement lives longer. */
  lemma PruneKeeps(m: Entries, key: Key, until: Time, now: Time)
    requires key in m && m[key] >= until && now <= until
    ensures key in Pruned(m, now) && Pruned(m, now)[key] == m[key]
  {
  }

  /**
   * A signed command (key, issued_at) passes both checks at most once in a process's lifetime,
   * whatever other traffic and sweeps there are, as long as the clock is steady.
   */
  lemma NoReplay(attempts: seq<Attempt>, i: nat, j: nat)
    requires ClockSteady(attempts) && i < j < |attempts|
    requires attempts[i].key == attempts[j].key && attempts[i].issuedAt == attempts[j].issuedAt
    requires AcceptedAt(attempts, i)
    ensures !AcceptedAt(attempts, j)
  {
    var before := attempts[..j];
    assert before[..i] == attempts[..i];
    Remembered(before, i);
    if WithinDrift(attempts[j]) {
      assert attempts[j].now <= attempts[i].now + 2 * DRIFT;
      forall k | i < k < |before|
        ensures before[k].now <= before[i].now + TTL
      {
        assert attempts[j].now >= attempts[k].now - DRIFT;
      }
      PruneKeeps(Replay(before), attempts[i].key, attempts[i].now + TTL, attempts[j].now);
    }
  }

  /** Every entry was made by an accepted attempt, and lives fifteen minutes from then. */
  ghost predicate MadeBy(attempts: seq<Attempt>, key: Key, until: Time) {
    exists i :: 0 <= i < |attempts| && AcceptedAt(attempts, i) && attempts[i].key == key && attempts[i].now + TTL == until
  }

  lemma {:induction false} EntriesHaveMakers(attempts: seq<Attempt>, key: Key)
    requires key in Replay(attempts)
    ensures MadeBy(attempts, key, Replay(attempts)[key])
  {
    var n := |attempts| - 1;
    var before, last := attempts[..n], attempts[n];
    if key in Replay(before) && Replay(attempts)[key] == Replay(before)[key] {
      EntriesHaveMakers(before, key);
      var i :| 0 <= i < |before| && AcceptedAt(before, i) && before[i].key == key && before[i].now + TTL == Replay(before)[key];
      assert before[..i] == attempts[..i];
      assert AcceptedAt(attempts, i);
    } else {
      assert AcceptedAt(attempts, n);
    }
  }

  /**
   * Nobody is refused for nothing: an attempt within the drift window is turned down only for a command
   * with its key that was accepted before and less than fifteen minutes earlier by the clock.
   */
  lemma RefusedOnlyForARepeat(attempts: seq<Attempt>, j: nat) returns (i: nat)
    requires j < |attempts| && -DRIFT <= attempts[j].now - attempts[j].issuedAt <= DRIFT && !AcceptedAt(attempts, j)
    ensures i < j && AcceptedAt(attempts, i) && attempts[i].key == attempts[j].key
    ensures attempts[j].now < attempts[i].now + TTL
  {
    var before := attempts[..j];
    EntriesHaveMakers(before, attempts[j].key);
    i :| 0 <= i < |before| && AcceptedAt(before, i) && before[i].key == attempts[j].key
         && before[i].now + TTL == Replay(before)[attempts[j].key];
    assert before[..i] == attempts[..i];
  }

  /** While the cache never has to be pruned, nothing is forgotten. */
  ghost predicate NeverPruned(attempts: seq<Attempt>) {
    forall k :: 0 <= k <= |attempts| ==> |Replay(attempts[..k])| <= 256
  }

  lemma {:induction false} RememberedUnpruned(attempts: seq<Attempt>, i: nat)
    requires i < |attempts| && AcceptedAt(attempts, i) && NeverPruned(attempts)
    ensures attempts[i].key in Replay(attempts) && Replay(attempts)[attempts[i].key] >= attempts[i].now + TTL
    decreases |attempts|
  {
    var n := |attempts| - 1;
    var before := attempts[..n];
    assert |Replay(attempts[..n])| <= 256;
    if i < n {
      assert before[..i] == attempts[..i];
      forall k | 0 <= k <= n
        ensures |Replay(before[..k])| <= 256
      {
        assert before[..k] == attempts[..k];
      }
      RememberedUnpruned(before, i);
    }
  }

  /** And then a command passes at most once whatever the clock does. */
  lemma NoReplayUnpruned(attempts: seq<Attempt>, i: nat, j: nat)
    requires i < j < |attempts| && NeverPruned(attempts[..j])
    requires attempts[i].key == attempts[j].key && attempts[i].issuedAt == attempts[j].issuedAt
    requires AcceptedAt(attempts, i)
    ensures !AcceptedAt(attempts, j)
  {
    var before := attempts[..j];
    assert before[..i] == attempts[..i] && before[..j] == before;
    RememberedUnpruned(before, i);
    assert |Replay(before[..j])| <= 256;
  }

  // ----- the five minutes, and the 256 entries, are exact -----

  const NANOSECOND: Time := 1

  /** An owner's commands are told apart by their nonces; these have lengths 1, 2 and so on. */
  function KeyNumber(pubkey: Text, k: nat): (key: Key)
    ensures |key| == |pubkey| + 1 + k
  {
    KeyOf(pubkey, seq(k, _ => 1))
  }

  /** What one owner sends: the command that will pass twice, and n - 1 others, all at time 0. */
  function Burst(pubkey: Text, n: nat): (attempts: seq<Attempt>)
    requires n > 0
    ensures |attempts| == n
    ensures forall i :: 0 <= i < n ==> attempts[i].key == KeyNumber(pubkey, i + 1) && attempts[i].now == 0
    ensures attempts[0].issuedAt == DRIFT
  {
    if n == 1 then [Attempt(KeyNumber(pubkey, 1), DRIFT, 0)]
    else Burst(pubkey, n - 1) + [Attempt(KeyNumber(pubkey, n), 0, 0)]
  }

  lemma ReplaySnoc(attempts: seq<Attempt>, a: Attempt)
    ensures Replay(attempts + [a]) == After(Replay(attempts), a)
  {
    assert (attempts + [a])[..|attempts|] == attempts;
  }

  /** A cache of n entries for the first n keys, all made at time 0. */
  ghost predicate Filled(m: Entries, pubkey: Text, n: nat) {
    |m| == n && KeyNumber(pubkey, 1) in m && forall k :: k in m ==> m[k] == TTL && |k| <= |pubkey| + 1 + n
  }

  lemma OneMore(m: Entries, pubkey: Text, n: nat)
    requires Filled(m, pubkey, n)
    ensures Filled(After(m, Attempt(KeyNumber(pubkey, n + 1), 0, 0)), pubkey, n + 1)
  {
    var key := KeyNumber(pubkey, n + 1);
    assert key !in m;
    assert Pruned(m, 0) == m;
    assert After(m, Attempt(key, 0, 0)) == m[key := TTL];
  }

  lemma OneMoreAttempt(attempts: seq<Attempt>, pubkey: Text, n: nat)
    requires Filled(Replay(attempts), pubkey, n)
    ensures Filled(Replay(attempts + [Attempt(KeyNumber(pubkey, n + 1), 0, 0)]), pubkey, n + 1)
  {
    ReplaySnoc(attempts, Attempt(KeyNumber(pubkey, n + 1), 0, 0));
    OneMore(Replay(attempts), pubkey, n);
  }

  lemma FirstFills(pubkey: Text)
    ensures Filled(Replay([Attempt(KeyNumber(pubkey, 1), DRIFT, 0)]), pubkey, 1)
  {
    var first := Attempt(KeyNumber(pubkey, 1), DRIFT, 0);
    assert [first] == [] + [first];
    ReplaySnoc([], first);
    assert After(map[], first) == map[first.key := TTL];
  }

  lemma {:induction false} BurstFillsTheCache(pubkey: Text, n: nat)
    requires n > 0
    ensures Filled(Replay(Burst(pubkey, n)), pubkey, n)
  {
    if n == 1 {
      FirstFills(pubkey);
    } else {
      BurstFillsTheCache(pubkey, n - 1);
      OneMoreAttempt(Burst(pubkey, n - 1), pubkey, n - 1);
    }
  }

  /** A full cache is swept by a late command, and the first one passes again. */
  lemma SweptAndReplayed(m: Entries, pubkey: Text, n: nat)
    requires n > 256 && Filled(m, pubkey, n)
    ensures var late := TTL + NANOSECOND;
            !Seen(After(m, Attempt(KeyNumber(pubkey, n + 1), late, late)), KeyNumber(pubkey, 1), 2 * DRIFT)
  {
    var late, key := TTL + NANOSECOND, KeyNumber(pubkey, n + 1);
    assert Pruned(m, late) == map[];
    assert After(m, Attempt(key, late, late)) == map[key := late + TTL];
    assert |KeyNumber(pubkey, 1)| < |key|;
  }

  /** The burst, the late command that sweeps the cache, and the first command once more. */
  function JumpRun(pubkey: Text, n: nat): (attempts: seq<Attempt>)
    requires n > 0
    ensures |attempts| == n + 2
  {
    Burst(pubkey, n) + [Attempt(KeyNumber(pubkey, n + 1), TTL + NANOSECOND, TTL + NANOSECOND)]
    + [Attempt(KeyNumber(pubkey, 1), DRIFT, 2 * DRIFT)]
  }

  /** A key the handler can form: this owner's, with some nonce. */
  ghost predicate Receivable(pubkey: Text, key: Key) {
    exists nonce :: nonce != [] && key == KeyOf(pubkey, nonce)
  }

  lemma NumberReceivable(pubkey: Text, k: nat)
    requires k > 0
    ensures Receivable(pubkey, KeyNumber(pubkey, k))
  {
    var nonce: Text := seq(k, _ => 1);
    assert KeyNumber(pubkey, k) == KeyOf(pubkey, nonce);
  }

  lemma JumpRunKeys(pubkey: Text, n: nat)
    requires n > 0
    ensures forall i :: 0 <= i < n + 2 ==> Receivable(pubkey, JumpRun(pubkey, n)[i].key)
  {
    forall i | 0 <= i < n + 2
      ensures Receivable(pubkey, JumpRun(pubkey, n)[i].key)
    {
      NumberReceivable(pubkey, if i <= n then i + 1 else 1);
    }
  }

  /**
   * One nanosecond more and it fails: an owner's runs whose clock falls back by five minutes and a
   * nanosecond at most, and which accept one command twice. The cache must have grown past 256 entries.
   */
  lemma ReplayAfterClockJump(pubkey: Text, n: nat) returns (attempts: seq<Attempt>, j: nat)
    requires n > 256
    ensures 0 < j < |attempts| && attempts[j].key == attempts[0].key && attempts[j].issuedAt == attempts[0].issuedAt
    ensures forall i :: 0 <= i < |attempts| ==> Receivable(pubkey, attempts[i].key)
    ensures AcceptedAt(attempts, 0) && AcceptedAt(attempts, j)
    ensures forall i, k :: 0 <= i < k < |attempts| ==> attempts[k].now >= attempts[i].now - DRIFT - NANOSECOND
  {
    var burst := Burst(pubkey, n);
    var late := Attempt(KeyNumber(pubkey, n + 1), TTL + NANOSECOND, TTL + NANOSECOND);
    attempts, j := JumpRun(pubkey, n), n + 1;
    assert attempts == burst + [late] + [Attempt(KeyNumber(pubkey, 1), DRIFT, 2 * DRIFT)];
    JumpRunKeys(pubkey, n);
    BurstFillsTheCache(pubkey, n);
    SweptAndReplayed(Replay(burst), pubkey, n);
    ReplaySnoc(burst, late);
    assert attempts[..j] == burst + [late] && attempts[..0] == [];
  }

  // ----- the handler -----

  /** The decoded body. */
  datatype Command = Command(payload: Text, signature: Text)

  /** The parsed payload; None is a time that is not RFC 3339. */
  datatype Payload = Payload(accountID: Text, merkleRoot: Name, issuedAtText: Text, issuedAt: Option<Time>, nonce: Text)

  /** Base64url, key decoding, Ed25519 and JSON, of which nothing more is assumed. */
  datatype Codec = Codec(decode: Text -> Option<seq<byte>>, key: Text -> Option<seq<byte>>, verify: (seq<byte>, Text, seq<byte>) -> bool,
                         parse: Text -> Option<Payload>)

  datatype Verdict = Deleted | NoOwnership | BadBody | BadSignature | BadStoredKey | NotVerified | BadPayload
                   | WrongRoot | BadTime | OutsideDrift | Replayed

  /** What the replay checks see of a parsed command. */
  function AttemptOf(c: Codec, own: Store.Ownership, cmd: Command, now: Time): Attempt
    requires c.parse(cmd.payload).Some? && c.parse(cmd.payload).value.issuedAt.Some?
  {
    var p := c.parse(cmd.payload).value;
    Attempt(KeyOf(own.ownerSigPubkey, p.nonce), p.issuedAt.value, now)
  }

  /** The owner of the object signed this command for this object, and it is fresh. */
  ghost predicate Authorised(c: Codec, own: Store.Ownership, root: Name, cmd: Command, now: Time, entries: Entries) {
    && cmd.payload != [] && cmd.signature != []
    && c.decode(cmd.signature).Some? && |c.decode(cmd.signature).value| == 64
    && c.key(own.ownerSigPubkey).Some?
    && c.verify(c.key(own.ownerSigPubkey).value, cmd.payload, c.decode(cmd.signature).value)
    && c.parse(cmd.payload).Some?
    && var p := c.parse(cmd.payload).value;
    && p.accountID != [] && p.merkleRoot != [] && p.issuedAtText != [] && p.nonce != []
    && p.merkleRoot == root && p.issuedAt.Some?
    && -5 * MINUTE <= now - p.issuedAt.value <= 5 * MINUTE && !Seen(entries, KeyOf(own.ownerSigPubkey, p.nonce), now)
  }

  /**
   * handleDeleteSigned: a command is accepted exactly when it is authorised by the key on record for
   * this very object. Then the live object, its index, ownership and coverage go, as far as they can be
   * removed; bytes of the root that are in quarantine stay (see
   * StoreRun.DeleteWhileQuarantinedLosesIndex). Otherwise nothing is removed. Only a fully verified
   * command reaches the nonce cache.
   */
  method HandleDelete(c: Codec, store: Store.Store, nonces: NonceCache, root: Name, cmd: Command, now: Time,
                      f: Store.DeleteFaults)
      returns (v: Verdict)
    modifies store, nonces
    ensures v == Deleted <==>
              root in old(store.ownership) && Authorised(c, old(store.ownership)[root], root, cmd, now, old(nonces.entries))
    ensures v == Deleted ==>
              && store.objects == Store.Without(old(store.objects), root, f.bytes)
              && store.index == Store.Without(old(store.index), root, f.index)
              && store.ownership == Store.Without(old(store.ownership), root, f.ownership)
              && store.coverage == Store.Without(old(store.coverage), root, f.coverage)
    ensures v == Deleted ==>
              && (root in store.objects <==> root in old(store.objects) && f.bytes)
              && (root in store.index <==> root in old(store.index) && f.index)
              && (root in store.ownership <==> f.ownership)
              && (root in store.coverage <==> root in old(store.coverage) && f.coverage)
    ensures v != Deleted ==>
              && store.objects == old(store.objects) && store.index == old(store.index)
              && store.ownership == old(store.ownership) && store.coverage == old(store.coverage)
    ensures v == Deleted || v == Replayed ==>
              && root in old(store.ownership) && c.parse(cmd.payload).Some? && c.parse(cmd.payload).value.issuedAt.Some?
              && nonces.entries == After(old(nonces.entries), AttemptOf(c, old(store.ownership)[root], cmd, now))
    ensures v == NoOwnership <==> root !in old(store.ownership)
    ensures v == BadBody ==> cmd.payload == [] || cmd.signature == []
    ensures v == BadSignature ==> c.decode(cmd.signature) == None || |c.decode(cmd.signature).value| != 64
    ensures v == BadStoredKey ==> root in old(store.ownership) && c.key(old(store.ownership)[root].ownerSigPubkey) == None
    ensures v == NotVerified ==>
              && root in old(store.ownership) && c.decode(cmd.signature).Some?
              && var key := c.key(old(store.ownership)[root].ownerSigPubkey);
              && key.Some? && !c.verify(key.value, cmd.payload, c.decode(cmd.signature).value)
    ensures v == BadPayload ==>
              && var p := c.parse(cmd.payload);
              p == None || p.value.accountID == [] || p.value.merkleRoot == [] || p.value.issuedAtText == [] || p.value.nonce == []
    ensures v == WrongRoot ==> c.parse(cmd.payload).Some? && c.parse(cmd.payload).value.merkleRoot != root
    ensures v == BadTime ==> c.parse(cmd.payload).Some? && c.parse(cmd.payload).value.issuedAt == None
    ensures v == OutsideDrift ==>
              && c.parse(cmd.payload).Some? && c.parse(cmd.payload).value.issuedAt.Some?
              && !(-5 * MINUTE <= now - c.parse(cmd.payload).value.issuedAt.value <= 5 * MINUTE)
    ensures v == Replayed ==>
              Seen(old(nonces.entries), KeyOf(old(store.ownership)[root].ownerSigPubkey, c.parse(cmd.payload).value.nonce), now)
    ensures v != Deleted && v != Replayed ==> nonces.entries == old(nonces.entries)
  {
    if root !in store.ownership {
      return NoOwnership;
    }
    var own := store.ownership[root];
    if cmd.payload == [] || cmd.signature == [] {
      return BadBody;
    }
    var signature := c.decode(cmd.signature);
    if signature.None? || |signature.value| != 64 {
      return BadSignature;
    }
    var key := c.key(own.ownerSigPubkey);
    if key.None? {
      return BadStoredKey;
    }
    if !c.verify(key.value, cmd.payload, signature.value) {
      return NotVerified;
    }
    var parsed := c.parse(cmd.payload);
    if parsed.None? {
      return BadPayload;
    }
    var p := parsed.value;
    if p.accountID == [] || p.merkleRoot == [] || p.issuedAtText == [] || p.nonce == [] {
      return BadPayload;
    }
    if p.merkleRoot != root {
      return WrongRoot;
    }
    if p.issuedAt.None? {
      return BadTime;
    }
    var delta := now - p.issuedAt.value;
    if delta < -DRIFT || delta > DRIFT {
      return OutsideDrift;
    }
    var seen := nonces.Check(own.ownerSigPubkey, p.nonce, now);
    if seen {
      return Replayed;
    }
    store.Delete(root, f);
    return Deleted;
  }
}
