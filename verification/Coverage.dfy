/**
 * The cached coverage record (store/store.go), the coordinator's answers (coverage/client.go),
 * the refresh pass (coverage/refresher.go) and the recheck before deletion (gc/sweeper.go).
 */
module Coverage {
  import opened Basics
  import opened Encoding
  import opened Merkle

  type Time = int
  type Name = Text

  const COVERED := "covered"

  lemma HexNameIs(n: Name)
    ensures IsHexName(n) <==> n != [] && forall i :: 0 <= i < |n| ==> 48 <= n[i] <= 57 || 97 <= n[i] <= 102 || 65 <= n[i] <= 70
  {
    forall i | 0 <= i < |n|
      ensures HexValue(n[i]).Some? <==> 48 <= n[i] <= 57 || 97 <= n[i] <= 102 || 65 <= n[i] <= 70
    {
      HexValueIs(n[i]);
    }
  }

  predicate IsHexName(n: Name) {
    n != [] && forall i :: 0 <= i < |n| ==> HexValue(n[i]).Some?
  }

  // ----- the cached record -----

  datatype Answer = Answer(status: string, reclaimable: bool, until: string, reason: string)

  datatype Record = Record(answer: Answer, refreshedAt: Time,
                           firstSeenUncovered: Option<Time>, firstSeenReclaimable: Option<Time>)

  /** A marker survives while its condition holds, starts at `now`, and goes when the condition goes. */
  function Marker(holds: bool, prior: Option<Time>, now: Time): Option<Time> {
    if !holds then None else if prior.Some? then prior else Some(now)
  }

  /** The record UpdateCoverage writes over `prior`. */
  function Updated(prior: Option<Record>, answer: Answer, now: Time): Record {
    Record(answer, now,
           Marker(answer.status != COVERED, if prior.Some? then prior.value.firstSeenUncovered else None, now),
           Marker(answer.reclaimable, if prior.Some? then prior.value.firstSeenReclaimable else None, now))
  }

  datatype Observation = Observation(answer: Answer, at: Time)

  /** The record after a history of answers, starting from no record. */
  function Replay(history: seq<Observation>): (r: Option<Record>)
    ensures r.None? <==> history == []
  {
    if history == [] then None
    else
      var last := history[|history| - 1];
      Some(Updated(Replay(history[..|history| - 1]), last.answer, last.at))
  }

  /** Where the longest all-true suffix begins. */
  function SuffixStart(flags: seq<bool>): (k: nat)
    ensures k <= |flags| && (forall i :: k <= i < |flags| ==> flags[i]) && (k > 0 ==> !flags[k - 1])
  {
    if flags == [] || !flags[|flags| - 1] then |flags| else SuffixStart(flags[..|flags| - 1])
  }

  function ReclaimableFlags(history: seq<Observation>): (flags: seq<bool>)
    ensures |flags| == |history|
  {
    seq(|history|, i requires 0 <= i < |history| => history[i].answer.reclaimable)
  }

  function UncoveredFlags(history: seq<Observation>): (flags: seq<bool>)
    ensures |flags| == |history|
  {
    seq(|history|, i requires 0 <= i < |history| => history[i].answer.status != COVERED)
  }

  function FirstOfSuffix(history: seq<Observation>, flags: seq<bool>): Option<Time>
    requires |flags| == |history|
  {
    var k := SuffixStart(flags);
    if k == |history| then None else Some(history[k].at)
  }

  /** Each marker is the time of the first answer in the unbroken run of such answers that ends the history. */
  lemma {:induction false} MarkersAreHistory(history: seq<Observation>)
    requires history != []
    ensures Replay(history).value.firstSeenReclaimable == FirstOfSuffix(history, ReclaimableFlags(history))
    ensures Replay(history).value.firstSeenUncovered == FirstOfSuffix(history, UncoveredFlags(history))
  {
    var n := |history| - 1;
    var before := history[..n];
    assert ReclaimableFlags(history)[..n] == ReclaimableFlags(before);
    assert UncoveredFlags(history)[..n] == UncoveredFlags(before);
    if before != [] {
      MarkersAreHistory(before);
    }
  }

  // ----- the coordinator's answers -----

  datatype RootStatus = RootStatus(status: string, reclaimable: Option<bool>, contracted: bool,
                                   until: string, reason: string)
  {
    /** Falls back to the legacy field when the coordinator left `reclaimable` out. */
    function MayReclaim(): bool {
      if reclaimable.Some? then reclaimable.value else !contracted
    }

    function CoordSentReclaimable(): bool {
      reclaimable.Some?
    }

    function ToAnswer(): Answer {
      Answer(status, MayReclaim(), until, reason)
    }
  }

  datatype QueryError = QueryError(deadlineExceeded: bool, nonRetryable: bool, message: string)

  type QueryResult = Result<map<Name, RootStatus>, QueryError>

  datatype Recheck = Unusable(reason: string) | Retained | Reclaimable

  predicate Contains(s: string, sub: string) {
    sub <= s || (s != [] && Contains(s[1..], sub))
  }

  predicate OccursAt(s: string, sub: string, k: nat) {
    k + |sub| <= |s| && s[k..k + |sub|] == sub
  }

  /** The message has the text somewhere in it. */
  lemma {:induction false} ContainsIs(s: string, sub: string)
    ensures Contains(s, sub) <==> exists k: nat :: OccursAt(s, sub, k)
  {
    if sub <= s {
      assert OccursAt(s, sub, 0);
    } else {
      forall k: nat | OccursAt(s, sub, k)
        ensures s != [] && k > 0 && OccursAt(s[1..], sub, k - 1)
      {
        NotAtStart(s, sub, k);
      }
      if s != [] {
        ContainsIs(s[1..], sub);
        forall k: nat | OccursAt(s[1..], sub, k)
          ensures OccursAt(s, sub, k + 1)
        {
          assert s[1..][k..k + |sub|] == s[k + 1..k + 1 + |sub|];
        }
      }
    }
  }

  lemma NotAtStart(s: string, sub: string, k: nat)
    requires OccursAt(s, sub, k) && !(sub <= s)
    ensures s != [] && k > 0 && OccursAt(s[1..], sub, k - 1)
  {
    assert s[0..0 + |sub|] != sub;
    assert s[1..][k - 1..k - 1 + |sub|] == s[k..k + |sub|];
  }

  predicate SaysTimeout(err: QueryError) {
    Contains(err.message, "Client.Timeout") || Contains(err.message, "deadline exceeded")
  }

  /** A passed deadline is a timeout whatever else is wrong, and a refusal is never taken for an outage. */
  function ClassifyRecheckError(err: QueryError): (reason: string)
    ensures reason in {"timeout", "parse", "5xx", "network"}
    ensures reason == "timeout" <==> err.deadlineExceeded || (!err.nonRetryable && SaysTimeout(err))
    ensures reason == "5xx" <==>
              !err.deadlineExceeded && !err.nonRetryable && !SaysTimeout(err) && Contains(err.message, "coord 5")
    ensures reason == "parse" <==>
              && !err.deadlineExceeded
              && (err.nonRetryable || (Contains(err.message, "decode response") && !SaysTimeout(err)
                                       && !Contains(err.message, "coord 5")))
  {
    if err.deadlineExceeded then "timeout"
    else if err.nonRetryable then "parse"
    else if SaysTimeout(err) then "timeout"
    else if Contains(err.message, "coord 5") then "5xx"
    else if Contains(err.message, "decode response") then "parse"
    else "network"
  }

  /**
   * clientRechecker.Recheck. Deletion may go on only when the coordinator answered for this very
   * root and said so in the explicit field; the legacy fallback never authorises it.
   */
  function RecheckOf(reply: QueryResult, root: Name): (r: Recheck)
    ensures r.Reclaimable? <==> reply.Ok? && root in reply.value && reply.value[root].reclaimable == Some(true)
    ensures r.Retained? <==> reply.Ok? && root in reply.value && reply.value[root].reclaimable == Some(false)
    ensures reply.Ok? && root !in reply.value ==> r == Unusable("parse")
    ensures reply.Ok? && root in reply.value && reply.value[root].reclaimable == None ==> r == Unusable("no_reclaimable_field")
    ensures reply.Err? ==> r == Unusable(ClassifyRecheckError(reply.error))
  {
    match reply
    case Err(err) => Unusable(ClassifyRecheckError(err))
    case Ok(answers) =>
      if root !in answers then Unusable("parse")
      else if !answers[root].CoordSentReclaimable() then Unusable("no_reclaimable_field")
      else if answers[root].MayReclaim() then Reclaimable
      else Retained
  }

  // ----- the refresh pass -----

  datatype Reply = Failed | Replied(answers: map<Name, RootStatus>, now: Time)

  /** What one refresh does to one record, given the reply to that root's batch. */
  function Refreshed(prior: Option<Record>, root: Name, reply: Reply, writeFails: bool): Option<Record> {
    if reply.Replied? && root in reply.answers && !writeFails then
      Some(Updated(prior, reply.answers[root].ToAnswer(), reply.now))
    else prior
  }

  function Lookup<T>(m: map<Name, T>, n: Name): Option<T> {
    if n in m then Some(m[n]) else None
  }

  predicate Distinct<T(==)>(s: seq<T>) {
    forall i, j :: 0 <= i < j < |s| ==> s[i] != s[j]
  }

  /** A reply, for a root it names, as the record that must be cached for it, field by field. */
  ghost predicate CachedFrom(r: Option<Record>, status: RootStatus, now: Time) {
    && r.Some?
    && r.value.answer.status == status.status && r.value.answer.until == status.until && r.value.answer.reason == status.reason
    && r.value.answer.reclaimable == (if status.reclaimable == None then !status.contracted else status.reclaimable == Some(true))
    && r.value.refreshedAt == now
    && (r.value.firstSeenReclaimable.Some? <==> r.value.answer.reclaimable)
    && (r.value.firstSeenUncovered.Some? <==> status.status != "covered")
  }

  /** What a refresh with this reply makes of a root's record, without going through the transition function. */
  ghost predicate RefreshSays(prior: Option<Record>, after: Option<Record>, root: Name, reply: Reply, writeFails: bool) {
    if reply.Replied? && root in reply.answers && !writeFails then
      && CachedFrom(after, reply.answers[root], reply.now)
      && (prior.Some? && prior.value.firstSeenReclaimable.Some? && after.value.answer.reclaimable ==>
            after.value.firstSeenReclaimable == prior.value.firstSeenReclaimable)
      && ((prior.None? || prior.value.firstSeenReclaimable.None?) && after.value.answer.reclaimable ==>
            after.value.firstSeenReclaimable == Some(reply.now))
    else after == prior
  }

  lemma RefreshedSays(prior: Option<Record>, root: Name, reply: Reply, writeFails: bool)
    ensures RefreshSays(prior, Refreshed(prior, root, reply, writeFails), root, reply, writeFails)
  {
  }

  /** That of every root, with the reply to its own batch: position p is in batch p / size. */
  ghost predicate AllSay(was: map<Name, Record>, records: map<Name, Record>, roots: seq<Name>, size: nat,
                         reply: nat -> Reply, writeFails: Name -> bool)
    requires size > 0
  {
    forall p :: 0 <= p < |roots| ==>
      RefreshSays(Lookup(was, roots[p]), Lookup(records, roots[p]), roots[p], reply(p / size), writeFails(roots[p]))
  }

  ghost function Wanted(was: map<Name, Record>, roots: seq<Name>, size: nat, reply: nat -> Reply,
                        writeFails: Name -> bool): (want: seq<Option<Record>>)
    requires size > 0
    ensures |want| == |roots|
  {
    seq(|roots|, p requires 0 <= p < |roots| =>
      Refreshed(Lookup(was, roots[p]), roots[p], reply(BatchOf(p, size)), writeFails(roots[p])))
  }

  lemma WantedSays(was: map<Name, Record>, records: map<Name, Record>, roots: seq<Name>, size: nat,
                   reply: nat -> Reply, writeFails: Name -> bool)
    requires size > 0 && DoneUpTo(was, records, roots, Wanted(was, roots, size, reply, writeFails), |roots|)
    ensures AllSay(was, records, roots, size, reply, writeFails)
  {
    forall p | 0 <= p < |roots|
      ensures RefreshSays(Lookup(was, roots[p]), Lookup(records, roots[p]), roots[p], reply(p / size), writeFails(roots[p]))
    {
      BatchOfIsQuotient(p, size);
      RefreshedSays(Lookup(was, roots[p]), roots[p], reply(p / size), writeFails(roots[p]));
      assert Lookup(records, roots[p]) == Wanted(was, roots, size, reply, writeFails)[p];
    }
  }

  lemma AllInBatch(i: int, b: nat, size: nat, end: nat)
    requires size > 0 && i >= 0 && StartsBatch(i, b, size) && end <= i + size
    ensures forall p :: i <= p < end ==> BatchOf(p, size) == b
  {
    forall p | i <= p < end
      ensures BatchOf(p, size) == b
    {
      InBatch(i, b, size, p);
    }
  }

  lemma DoneIsDone(was: map<Name, Record>, records: map<Name, Record>, roots: seq<Name>, want: seq<Option<Record>>, i: int)
    requires |want| == |roots| <= i && DoneUpTo(was, records, roots, want, i)
    ensures DoneUpTo(was, records, roots, want, |roots|)
  {
  }

  /** The roots of one batch have their new records, everything else is as it was. */
  ghost predicate BatchRefreshed(before: map<Name, Record>, records: map<Name, Record>, roots: seq<Name>, from: nat, end: nat,
                                 reply: Reply, writeFails: Name -> bool)
    requires from <= end <= |roots|
  {
    && (forall p :: from <= p < end ==>
          Lookup(records, roots[p]) == Refreshed(Lookup(before, roots[p]), roots[p], reply, writeFails(roots[p])))
    && (forall p :: 0 <= p < from || end <= p < |roots| ==> Lookup(records, roots[p]) == Lookup(before, roots[p]))
    && (forall n :: n !in roots ==> Lookup(records, n) == Lookup(before, n))
  }

  /** One batch more is done. */
  lemma BatchDone(was: map<Name, Record>, before: map<Name, Record>, records: map<Name, Record>, roots: seq<Name>, size: nat,
                  reply: nat -> Reply, writeFails: Name -> bool, i: nat, end: nat, b: nat)
    requires size > 0 && i <= end <= |roots| && (end == i + size || end == |roots| < i + size)
    requires DoneUpTo(was, before, roots, Wanted(was, roots, size, reply, writeFails), i)
    requires forall p :: i <= p < end ==> BatchOf(p, size) == b
    requires BatchRefreshed(before, records, roots, i, end, reply(b), writeFails)
    ensures DoneUpTo(was, records, roots, Wanted(was, roots, size, reply, writeFails), i + size)
  {
  }

  /** How many of the positions before n hold a root that its batch's reply names and whose record can be written. */
  function Updates(roots: seq<Name>, n: nat, size: nat, reply: nat -> Reply, writeFails: Name -> bool): (k: nat)
    requires n <= |roots| && size > 0
    ensures k <= n
  {
    if n == 0 then 0
    else
      var r := reply(BatchOf(n - 1, size));
      Updates(roots, n - 1, size, reply, writeFails)
      + if r.Replied? && roots[n - 1] in r.answers && !writeFails(roots[n - 1]) then 1 else 0
  }

  class Cache {
    var records: map<Name, Record>

    method UpdateCoverage(root: Name, answer: Answer, now: Time, writeFails: bool) returns (ok: bool)
      modifies this
      ensures ok == !writeFails
      ensures records == if ok then old(records)[root := Updated(old(Lookup(records, root)), answer, now)]
                         else old(records)
      ensures ok ==>
                && root in records && records[root].answer == answer && records[root].refreshedAt == now
                && (records[root].firstSeenReclaimable.Some? <==> answer.reclaimable)
                && (records[root].firstSeenUncovered.Some? <==> answer.status != "covered")
    {
      var prior := Lookup(records, root);
      var next := Record(answer, now, None, None);
      if answer.status != COVERED {
        if prior.Some? && prior.value.firstSeenUncovered.Some? {
          next := next.(firstSeenUncovered := prior.value.firstSeenUncovered);
        } else {
          next := next.(firstSeenUncovered := Some(now));
        }
      }
      if answer.reclaimable {
        if prior.Some? && prior.value.firstSeenReclaimable.Some? {
          next := next.(firstSeenReclaimable := prior.value.firstSeenReclaimable);
        } else {
          next := next.(firstSeenReclaimable := Some(now));
        }
      }
      if writeFails {
        return false;
      }
      records := records[root := next];
      return true;
    }

    /**
     * Refresher.RunOnce: for every batch size, exactly the roots that were answered (in the reply to
     * their own batch) get a new record; a failed batch, an omitted root and every other record stay.
     */
    method RefreshOnce(roots: seq<Name>, batchSize: int, reply: nat -> Reply, writeFails: Name -> bool)
        returns (updated: nat, failed: nat)
      requires Distinct(roots)
      modifies this
      ensures var size := if batchSize <= 0 then 500 else batchSize;
              forall p :: 0 <= p < |roots| ==>
                Lookup(records, roots[p])
                == Refreshed(old(Lookup(records, roots[p])), roots[p], reply(BatchOf(p, size)), writeFails(roots[p]))
      ensures AllSay(old(records), records, roots, if batchSize <= 0 then 500 else batchSize, reply, writeFails)
      ensures forall n :: n !in roots ==> Lookup(records, n) == old(Lookup(records, n))
      ensures updated == Updates(roots, |roots|, if batchSize <= 0 then 500 else batchSize, reply, writeFails)
      ensures updated + failed == |roots|
    {
      updated, failed := 0, 0;
      if |roots| == 0 {
        return;
      }
      var size := if batchSize <= 0 then 500 else batchSize;
      ghost var was := records;
      updated, failed := RefreshBatches(roots, size, reply, writeFails);
      WantedSays(was, records, roots, size, reply, writeFails);
    }

    /** The batch loop. */
    method RefreshBatches(roots: seq<Name>, size: nat, reply: nat -> Reply, writeFails: Name -> bool)
        returns (updated: nat, failed: nat)
      requires Distinct(roots) && size > 0
      modifies this
      ensures DoneUpTo(old(records), records, roots, Wanted(old(records), roots, size, reply, writeFails), |roots|)
      ensures updated == Updates(roots, |roots|, size, reply, writeFails) && updated + failed == |roots|
    {
      updated, failed := 0, 0;
      ghost var was := records;
      ghost var want := Wanted(was, roots, size, reply, writeFails);
      ghost var done: nat := 0;
      var i, b := 0, 0;
      while i < |roots|
        invariant 0 <= i && b >= 0 && StartsBatch(i, b, size)
        invariant DoneUpTo(was, records, roots, want, i)
        invariant done == (if i < |roots| then i else |roots|) && updated + failed == done
        invariant updated == Updates(roots, done, size, reply, writeFails)
        decreases |roots| - i
      {
        var end := i + size;
        if end > |roots| {
          end := |roots|;
        }
        AllInBatch(i, b, size, end);
        ghost var before := records;
        var u, f := RefreshBatch(roots, i, end, b, size, reply, writeFails);
        BatchDone(was, before, records, roots, size, reply, writeFails, i, end, b);
        updated, failed, done := updated + u, failed + f, end;
        i := i + size;
        b := b + 1;
      }
      DoneIsDone(was, records, roots, want, i);
    }

    /** One batch: the positions from `from` up to `end`, all in batch b. */
    method RefreshBatch(roots: seq<Name>, from: nat, end: nat, b: nat, size: nat, replies: nat -> Reply, writeFails: Name -> bool)
        returns (updated: nat, failed: nat)
      requires Distinct(roots) && from <= end <= |roots| && size > 0
      requires forall p :: from <= p < end ==> BatchOf(p, size) == b
      modifies this
      ensures BatchRefreshed(old(records), records, roots, from, end, replies(b), writeFails)
      ensures updated + failed == end - from
      ensures Updates(roots, end, size, replies, writeFails) == Updates(roots, from, size, replies, writeFails) + updated
    {
      updated, failed := 0, 0;
      var reply := replies(b);
      if reply.Failed? {
        NoneUpdated(roots, from, end, b, size, replies, writeFails);
        return 0, end - from;
      }
      for j := from to end
        invariant BatchRefreshed(old(records), records, roots, from, j, reply, writeFails)
        invariant updated + failed == j - from
        invariant Updates(roots, j, size, replies, writeFails) == Updates(roots, from, size, replies, writeFails) + updated
      {
        var root := roots[j];
        if root !in reply.answers {
          failed := failed + 1;
          continue;
        }
        var ok := UpdateCoverage(root, reply.answers[root].ToAnswer(), reply.now, writeFails(root));
        if ok {
          updated := updated + 1;
        } else {
          failed := failed + 1;
        }
      }
    }
  }

  lemma {:induction false} NoneUpdated(roots: seq<Name>, from: nat, end: nat, b: nat, size: nat, replies: nat -> Reply,
                                       writeFails: Name -> bool)
    requires from <= end <= |roots| && size > 0 && replies(b).Failed?
    requires forall p :: from <= p < end ==> BatchOf(p, size) == b
    ensures Updates(roots, end, size, replies, writeFails) == Updates(roots, from, size, replies, writeFails)
    decreases end - from
  {
    if from < end {
      NoneUpdated(roots, from, end - 1, b, size, replies, writeFails);
    }
  }

  /** The first i roots have their new records, everything else is as it was. */
  ghost predicate DoneUpTo(was: map<Name, Record>, records: map<Name, Record>, roots: seq<Name>,
                           want: seq<Option<Record>>, i: int)
    requires |want| == |roots|
  {
    && (forall p :: 0 <= p < |roots| ==> Lookup(records, roots[p]) == if p < i then want[p] else Lookup(was, roots[p]))
    && (forall n :: n !in roots ==> Lookup(records, n) == Lookup(was, n))
  }

  /** The number of the batch that position p falls in. */
  function BatchOf(p: nat, size: nat): nat
    requires size > 0
  {
    if p < size then 0 else 1 + BatchOf(p - size, size)
  }

  lemma {:induction false} BatchOfIsQuotient(p: nat, size: nat)
    requires size > 0
    ensures BatchOf(p, size) == p / size
  {
    if p < size {
      DivUnique(p, size, 0);
    } else {
      BatchOfIsQuotient(p - size, size);
      DivStep(p - size, size);
    }
  }

  lemma DivStep(n: nat, d: nat)
    requires d > 0
    ensures (n + d) / d == n / d + 1
  {
    var q := n / d;
    MulStep(q + 1, d);
    DivUnique(n + d, d, q + 1);
  }

  /** Batch number b begins at position i. */
  ghost predicate StartsBatch(i: int, b: nat, size: nat)
    decreases b
  {
    if b == 0 then i == 0 else StartsBatch(i - size, b - 1, size)
  }

  lemma {:induction false} InBatch(i: int, b: nat, size: nat, p: nat)
    requires size > 0 && StartsBatch(i, b, size) && i <= p < i + size
    ensures BatchOf(p, size) == b
    decreases b
  {
    if b > 0 {
      BatchNonNegative(i - size, b - 1, size);
      InBatch(i - size, b - 1, size, p - size);
    }
  }

  lemma {:induction false} BatchNonNegative(i: int, b: nat, size: nat)
    requires StartsBatch(i, b, size)
    ensures i >= 0
    decreases b
  {
    if b > 0 {
      BatchNonNegative(i - size, b - 1, size);
    }
  }
}
