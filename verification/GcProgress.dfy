/** Unwanted objects do go: how long garbage collection takes when nothing stands in its way. */
module GcProgress {
  import opened Basics
  import opened Coverage
  import opened SweepSpec

  /** What happens to one root: cycles whose rechecks say reclaimable, refreshes that say so too. */
  datatype Item = Sweep(at: Time) | Refresh(answer: Answer, at: Time)

  function After(cfg: Config, s: Slot, item: Item): Slot {
    match item
    case Sweep(at) => Cycle(cfg, at, s, Reclaimable, Reclaimable, NO_FAULTS)
    case Refresh(answer, at) => s.(cov := Some(Updated(s.cov, answer, at)))
  }

  function Replayed(cfg: Config, s: Slot, items: seq<Item>): Slot
    decreases |items|
  {
    if items == [] then s else Replayed(cfg, After(cfg, s, items[0]), items[1..])
  }

  ghost predicate AllReclaimable(items: seq<Item>) {
    forall k :: 0 <= k < |items| && items[k].Refresh? ==> items[k].answer.reclaimable
  }

  /** No two cycles in a row, and no start before the first, are more than `gap` apart; the last is at `end` or later. */
  ghost predicate SweepsWithin(items: seq<Item>, last: Time, gap: Time, end: Time) {
    if items == [] then last >= end
    else if items[0].Sweep? then last <= items[0].at <= last + gap && SweepsWithin(items[1..], items[0].at, gap, end)
    else SweepsWithin(items[1..], last, gap, end)
  }

  /** Nothing held in either place. */
  predicate Gone(s: Slot) {
    s.live.None? && s.quar.None?
  }

  /** Some prefix of the items, ending in a cycle no later than `limit`, destroys the object. */
  ghost predicate GoneBy(cfg: Config, s: Slot, items: seq<Item>, limit: Time) {
    exists k :: 0 <= k < |items| && items[k].Sweep? && items[k].at <= limit && Gone(Replayed(cfg, s, items[..k + 1]))
  }

  lemma GoneByFirst(cfg: Config, s: Slot, items: seq<Item>, limit: Time)
    requires items != [] && items[0].Sweep? && items[0].at <= limit && Gone(After(cfg, s, items[0]))
    ensures GoneBy(cfg, s, items, limit)
  {
    assert items[..0 + 1] == [items[0]];
    assert Replayed(cfg, s, [items[0]]) == Replayed(cfg, After(cfg, s, items[0]), []);
  }

  lemma GoneByLater(cfg: Config, s: Slot, items: seq<Item>, limit: Time)
    requires items != [] && GoneBy(cfg, After(cfg, s, items[0]), items[1..], limit)
    ensures GoneBy(cfg, s, items, limit)
  {
    var rest := items[1..];
    var k :| 0 <= k < |rest| && rest[k].Sweep? && rest[k].at <= limit
              && Gone(Replayed(cfg, After(cfg, s, items[0]), rest[..k + 1]));
    var prefix := items[..k + 1 + 1];
    assert prefix[0] == items[0] && prefix[1..] == rest[..k + 1];
    assert items[k + 1] == rest[k];
  }

  /** In quarantine since q: the first cycle at or after q + window destroys it. */
  lemma {:induction false} QuarantinedGoes(cfg: Config, s: Slot, items: seq<Item>, last: Time, gap: Time)
    requires cfg.Valid() && s.live.None? && s.quar.Some? && AllReclaimable(items)
    requires last <= s.quar.value.mtime + cfg.window && SweepsWithin(items, last, gap, s.quar.value.mtime + cfg.window + gap)
    requires gap > 0
    ensures GoneBy(cfg, s, items, s.quar.value.mtime + cfg.window + gap)
    decreases |items|
  {
    var limit := s.quar.value.mtime + cfg.window + gap;
    if items != [] {
      var s' := After(cfg, s, items[0]);
      if items[0].Sweep? && items[0].at >= s.quar.value.mtime + cfg.window {
        GoneByFirst(cfg, s, items, limit);
      } else {
        assert s'.live == s.live && s'.quar == s.quar;
        QuarantinedGoes(cfg, s', items[1..], if items[0].Sweep? then items[0].at else last, gap);
        GoneByLater(cfg, s, items, limit);
      }
    }
  }

  /**
   * Bounded progress: reclaimable since f in the cache, a file no newer than that, every refresh and
   * recheck saying reclaimable, cycles at most `gap` apart from before f + retention on: destroyed by
   * f + retention + window + 2 * gap.
   */
  lemma {:induction false} ReclaimableGoes(cfg: Config, s: Slot, f: Time, items: seq<Item>, last: Time, gap: Time)
    requires cfg.Valid() && gap > 0 && AllReclaimable(items)
    requires s.live.Some? && s.quar.None? && s.live.value.mtime <= f
    requires s.cov.Some? && s.cov.value.answer.reclaimable && s.cov.value.firstSeenReclaimable == Some(f)
    requires last <= f + cfg.retention
    requires SweepsWithin(items, last, gap, f + cfg.retention + cfg.window + 2 * gap)
    ensures GoneBy(cfg, s, items, f + cfg.retention + cfg.window + 2 * gap)
    decreases |items|
  {
    var limit := f + cfg.retention + cfg.window + 2 * gap;
    if items != [] {
      var s' := After(cfg, s, items[0]);
      if items[0].Sweep? && items[0].at >= f + cfg.retention {
        var t := items[0].at;
        assert s'.live == None && s'.quar == Some(File(s.live.value.bytes, t));
        WithinEarlier(items[1..], t, gap, limit, t + cfg.window + gap);
        QuarantinedGoes(cfg, s', items[1..], t, gap);
        GoneByMonotone(cfg, s', items[1..], t + cfg.window + gap, limit);
      } else {
        assert s'.live == s.live && s'.quar == s.quar;
        assert s'.cov.value.answer.reclaimable && s'.cov.value.firstSeenReclaimable == Some(f);
        ReclaimableGoes(cfg, s', f, items[1..], if items[0].Sweep? then items[0].at else last, gap);
      }
      GoneByLater(cfg, s, items, limit);
    }
  }

  lemma GoneByMonotone(cfg: Config, s: Slot, items: seq<Item>, limit: Time, limit': Time)
    requires limit <= limit' && GoneBy(cfg, s, items, limit)
    ensures GoneBy(cfg, s, items, limit')
  {
  }

  lemma {:induction false} WithinEarlier(items: seq<Item>, last: Time, gap: Time, end: Time, end': Time)
    requires end' <= end && SweepsWithin(items, last, gap, end)
    ensures SweepsWithin(items, last, gap, end')
  {
    if items != [] {
      WithinEarlier(items[1..], if items[0].Sweep? then items[0].at else last, gap, end, end');
    }
  }
}
