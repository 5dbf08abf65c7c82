/**
 * What one garbage-collection cycle does to one root: the file steps of gc/quarantine.go and the
 * two loop bodies of gc/sweeper.go as functions of that root's files.
 */
module SweepSpec {
  import opened Basics
  import opened Coverage

  datatype File = File(bytes: seq<byte>, mtime: Time)

  /** All the disk holds about one root. */
  datatype Slot = Slot(live: Option<File>, quar: Option<File>, index: Option<Text>, owner: Option<Text>,
                       cov: Option<Record>)

  /** Validate makes both durations positive. */
  datatype Config = Config(retention: Time, window: Time)
  {
    predicate Valid() {
      retention > 0 && window > 0
    }
  }

  /** Which file operations on one root fail during a cycle. */
  datatype Faults = Faults(info: bool, restore: bool, writeBack: bool, unlink: bool, dropIndex: bool, dropOwner: bool,
                           dropCov: bool, readCov: bool, readMtime: bool, size: bool, rename: bool, stamp: bool)

  const NO_FAULTS := Faults(false, false, false, false, false, false, false, false, false, false, false, false)

  const COVERED_ANSWER := Answer(COVERED, false, "", "")

  // ----- file steps -----

  function Restored(s: Slot): Slot {
    s.(live := s.quar, quar := None)
  }

  function WrittenBack(s: Slot, now: Time): Slot {
    s.(cov := Some(Updated(s.cov, COVERED_ANSWER, now)))
  }

  function Unlinked(s: Slot): Slot {
    s.(quar := None)
  }

  function IndexDropped(s: Slot, fails: bool): Slot {
    if fails then s else s.(index := None)
  }

  function OwnerDropped(s: Slot, fails: bool): Slot {
    if fails then s else s.(owner := None)
  }

  function CovDropped(s: Slot, fails: bool): Slot {
    if fails then s else s.(cov := None)
  }

  /** The rename alone: the file keeps the mtime it had. */
  function Renamed(s: Slot): Slot {
    s.(quar := s.live, live := None)
  }

  /** Chtimes, which starts the quarantine clock. */
  function Stamped(s: Slot, now: Time): Slot {
    if s.quar.None? then s else s.(quar := Some(s.quar.value.(mtime := now)))
  }

  // ----- the timers -----

  predicate WindowElapsed(cfg: Config, now: Time, quarantinedAt: Time) {
    now - quarantinedAt >= cfg.window
  }

  /** The start of the retention timer: the cached marker, or the file's mtime if that is later. */
  function FirstSeen(cov: Record, mtime: Option<Time>, now: Time): Time {
    var marker := if cov.firstSeenReclaimable.Some? then cov.firstSeenReclaimable.value else now;
    if mtime.Some? && mtime.value > marker then mtime.value else marker
  }

  predicate Eligible(cfg: Config, now: Time, firstSeen: Time) {
    now - firstSeen >= cfg.retention
  }

  // ----- the two loop bodies -----

  function DestroyedSlot(s: Slot, io: Faults): Slot {
    CovDropped(OwnerDropped(IndexDropped(Unlinked(s), io.dropIndex), io.dropOwner), io.dropCov)
  }

  predicate Destroys(cfg: Config, now: Time, s: Slot, answer: Recheck, io: Faults) {
    s.quar.Some? && !io.info && answer.Reclaimable? && WindowElapsed(cfg, now, s.quar.value.mtime) && !io.unlink
  }

  predicate Restores(s: Slot, answer: Recheck, io: Faults) {
    s.quar.Some? && !io.info && answer.Retained? && !io.restore
  }

  /** Phase 1 on a root: nothing happens unless it is listed in quarantine/. */
  function Phase1(cfg: Config, now: Time, s: Slot, answer: Recheck, io: Faults): Slot {
    if Restores(s, answer, io) then
      (if io.writeBack then Restored(s) else WrittenBack(Restored(s), now))
    else if Destroys(cfg, now, s, answer, io) then DestroyedSlot(s, io)
    else s
  }

  /** The cached record and the file's mtime make the root due for the live recheck. */
  predicate Due(cfg: Config, now: Time, s: Slot, io: Faults) {
    && s.live.Some? && s.cov.Some? && !io.readCov && s.cov.value.answer.reclaimable
    && Eligible(cfg, now, FirstSeen(s.cov.value, if io.readMtime then None else Some(s.live.value.mtime), now))
  }

  predicate Quarantines(cfg: Config, now: Time, s: Slot, answer: Recheck, io: Faults) {
    Due(cfg, now, s, io) && answer.Reclaimable? && !io.size && !io.rename
  }

  /** Phase 2 on a root: nothing happens unless it is listed in objects/. */
  function Phase2(cfg: Config, now: Time, s: Slot, answer: Recheck, io: Faults): Slot {
    if !Quarantines(cfg, now, s, answer, io) then s
    else if io.stamp then Renamed(s)
    else Stamped(Renamed(s), now)
  }

  /** A whole cycle. The two answers are the live rechecks of the two phases. */
  function Cycle(cfg: Config, now: Time, s: Slot, inQuar: Recheck, inObjects: Recheck, io: Faults): Slot {
    Phase2(cfg, now, Phase1(cfg, now, s, inQuar, io), inObjects, io)
  }

  // ----- conservation -----

  predicate Disjoint(s: Slot) {
    s.live.None? || s.quar.None?
  }

  function Held(s: Slot): Option<seq<byte>> {
    if s.live.Some? then Some(s.live.value.bytes)
    else if s.quar.Some? then Some(s.quar.value.bytes)
    else None
  }

  /** One place and the same bytes and records, or gone with all its records; a restore refreshes the cache. */
  predicate Conserved(cfg: Config, now: Time, s: Slot, s': Slot, inQuar: Recheck) {
    if Destroys(cfg, now, s, inQuar, NO_FAULTS) then s' == Slot(None, None, None, None, None)
    else
      && Disjoint(s') && Held(s') == Held(s) && s'.index == s.index && s'.owner == s.owner
      && s'.cov == if Restores(s, inQuar, NO_FAULTS) then WrittenBack(s, now).cov else s.cov
  }

  /** A cycle without file errors conserves every root that was in at most one place. */
  lemma CycleConserves(cfg: Config, now: Time, s: Slot, inQuar: Recheck, inObjects: Recheck)
    requires cfg.Valid() && Disjoint(s)
    ensures Conserved(cfg, now, s, Cycle(cfg, now, s, inQuar, inObjects, NO_FAULTS), inQuar)
  {
  }

  /** Neither phase touches anything when its answer is unusable, whatever the cache says. */
  lemma NoAnswerNoChange(cfg: Config, now: Time, s: Slot, inQuar: Recheck, inObjects: Recheck, io: Faults)
    requires inQuar.Unusable? && inObjects.Unusable?
    ensures Cycle(cfg, now, s, inQuar, inObjects, io) == s
  {
  }

  /** A root restored with its cache written is not quarantined again in the same cycle, whatever is answered. */
  lemma RescueSurvivesTheCycle(cfg: Config, now: Time, s: Slot, inQuar: Recheck, inObjects: Recheck, io: Faults)
    requires cfg.Valid() && Restores(s, inQuar, io) && !io.writeBack
    ensures Cycle(cfg, now, s, inQuar, inObjects, io) == WrittenBack(Restored(s), now)
  {
  }
}
