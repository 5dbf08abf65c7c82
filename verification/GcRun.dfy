/**
 * Garbage collection as it runs: the sweeper's file and network steps on one root, with refreshes,
 * uploads, deletes, operator moves, clock ticks and crashes between any two of them. Roots do not
 * interact (see Sweeper.RunOnce), so runs over one root are runs over the whole store.
 */
module GcRun {
  import opened Basics
  import opened Coverage
  import opened SweepSpec

  /** How the file now in quarantine/ got there; a sweeper's move is named by its place in the log. */
  datatype Origin = Absent | BySweeper(move: nat, stamped: bool) | ByOther

  /** What the sweeper does next to this root, with the values it has read so far. */
  datatype Pc =
    | Idle
    | ToListQuar | AskQuar(entryAt: Time) | ToRestore | ToWriteBack | ToUnlink(entryAt: Time, ask: nat)
    | ToDropIndex | ToDropOwner | ToDropCov
    | ToListObjects | ToReadCov | ToReadMtime(cov: Record, judged: nat) | AskObject(seen: Option<Time>, judged: nat)
    | ToSize(seen: Option<Time>, judged: nat, ask: nat) | ToRename(seen: Option<Time>, judged: nat, ask: nat)
    | ToStamp(move: nat)

  /** The history of a run. `sweep` numbers the cycles; judged, ask, anchor and move are places in the log. */
  datatype Entry =
    | Observed(reclaimable: bool, at: Time, written: Time, read: nat)   // an answer's record was written, its prior read at `read`
    | Forgotten                                                          // the coverage record was removed
    | Uploaded(mtime: Time)                                              // an upload was committed
    | Judged(sweep: nat, anchor: nat)             // phase 2 read a reclaimable record whose marker `anchor` set
    | Asked(sweep: nat, inQuar: bool, answer: Recheck)
    | ClockStarted(at: Time, move: nat)           // the moved file got its quarantine mtime
    | Moved(sweep: nat, at: Time, judged: nat, ask: nat, mtime: Time, seen: Option<Time>)
    | MovedBack(sweep: nat)
    | WroteBack(sweep: nat)
    | Destroyed(sweep: nat, at: Time, entryAt: Time, ask: nat, origin: Origin)

  /** An update of the coverage record between its two file steps: the prior record it read, and the new answer. */
  datatype Held = Held(prior: Option<Record>, anchor: nat, read: nat, answer: Answer, at: Time)

  datatype State = State(slot: Slot, clock: Time, pc: Pc, sweep: nat, now: Time, log: seq<Entry>,
                         origin: Origin, anchor: nat, held: Option<Held>)

  datatype Event =
    // the environment
    | Tick(dt: nat) | ReadPrior(answer: Answer, lag: nat) | WriteRecord | RemoveCov
    | PutLive(bytes: seq<byte>, age: nat) | RemoveLive | SetRecords(index: Option<Text>, owner: Option<Text>)
    | MvBack | MvIn | TouchLive | TouchQuar | RemoveQuar | Crash
    // the sweeper: a cycle starts, a file step succeeds or fails, a live recheck is answered
    | Begin | Act(ok: bool) | Ask(verdict: Recheck)

  function Initial(clock: Time): State {
    State(Slot(None, None, None, None, None), clock, Idle, 0, clock, [], Absent, 0, None)
  }

  // ----- steps -----

  predicate HasMarker(cov: Option<Record>) {
    cov.Some? && cov.value.firstSeenReclaimable.Some?
  }

  /** UpdateCoverage's second step: the new record goes over whatever is there. */
  function Observe(st: State, h: Held): State {
    st.(slot := st.slot.(cov := Some(Updated(h.prior, h.answer, h.at))),
        log := st.log + [Observed(h.answer.reclaimable, h.at, st.clock, h.read)],
        anchor := if HasMarker(h.prior) then h.anchor else |st.log|)
  }

  /** An update that is not interrupted. */
  function Update(st: State, answer: Answer, at: Time): Held {
    Held(st.slot.cov, st.anchor, |st.log|, answer, at)
  }

  function Forget(st: State): State {
    st.(slot := st.slot.(cov := None), log := st.log + [Forgotten])
  }

  function ActStep(cfg: Config, st: State, ok: bool): Option<State> {
    var s := st.slot;
    var n := |st.log|;
    match st.pc
    case ToListQuar =>
      Some(st.(pc := if ok && s.quar.Some? then AskQuar(s.quar.value.mtime) else ToListObjects))
    case ToRestore =>
      if ok && s.quar.Some? then
        Some(st.(slot := Restored(s), origin := Absent, log := st.log + [MovedBack(st.sweep)], pc := ToWriteBack))
      else Some(st.(pc := ToListObjects))
    case ToWriteBack =>
      if ok then
        var st1 := Observe(st, Update(st, COVERED_ANSWER, st.now));
        Some(st1.(log := st1.log + [WroteBack(st.sweep)], pc := ToListObjects))
      else Some(st.(pc := ToListObjects))
    case ToUnlink(entryAt, ask) =>
      if ok && s.quar.Some? then
        Some(st.(slot := Unlinked(s), origin := Absent, pc := ToDropIndex,
                 log := st.log + [Destroyed(st.sweep, st.now, entryAt, ask, st.origin)]))
      else Some(st.(pc := ToListObjects))
    case ToDropIndex => Some(st.(slot := IndexDropped(s, !ok), pc := ToDropOwner))
    case ToDropOwner => Some(st.(slot := OwnerDropped(s, !ok), pc := ToDropCov))
    case ToDropCov => Some((if ok then Forget(st) else st).(pc := ToListObjects))
    case ToListObjects => Some(st.(pc := if ok && s.live.Some? then ToReadCov else Idle))
    case ToReadCov =>
      if ok && s.cov.Some? && s.cov.value.answer.reclaimable then
        Some(st.(log := st.log + [Judged(st.sweep, st.anchor)], pc := ToReadMtime(s.cov.value, n)))
      else Some(st.(pc := Idle))
    case ToReadMtime(cov, judged) =>
      var seen := if ok && s.live.Some? then Some(s.live.value.mtime) else None;
      Some(st.(pc := if Eligible(cfg, st.now, FirstSeen(cov, seen, st.now)) then AskObject(seen, judged) else Idle))
    case ToSize(seen, judged, ask) =>
      Some(st.(pc := if ok && s.live.Some? then ToRename(seen, judged, ask) else Idle))
    case ToRename(seen, judged, ask) =>
      if ok && s.live.Some? then
        Some(st.(slot := Renamed(s), origin := BySweeper(n, false), pc := ToStamp(n),
                 log := st.log + [Moved(st.sweep, st.now, judged, ask, s.live.value.mtime, seen)]))
      else Some(st.(pc := Idle))
    case ToStamp(move) =>
      if !ok then Some(st.(pc := Idle))
      else if st.origin == BySweeper(move, false) then
        Some(st.(slot := Stamped(s, st.now), pc := Idle, origin := BySweeper(move, true),
                 log := st.log + [ClockStarted(st.now, move)]))
      else Some(st.(slot := Stamped(s, st.now), pc := Idle))
    case _ => None
  }

  function AskStep(cfg: Config, st: State, answer: Recheck): Option<State> {
    var n := |st.log|;
    match st.pc
    case AskQuar(entryAt) =>
      var st1 := st.(log := st.log + [Asked(st.sweep, true, answer)]);
      Some(st1.(pc := match answer
                case Unusable(_) => ToListObjects
                case Retained => ToRestore
                case Reclaimable => if WindowElapsed(cfg, st.now, entryAt) then ToUnlink(entryAt, n) else ToListObjects))
    case AskObject(seen, judged) =>
      Some(st.(log := st.log + [Asked(st.sweep, false, answer)],
               pc := if answer.Reclaimable? then ToSize(seen, judged, n) else Idle))
    case _ => None
  }

  /**
   * None where the event cannot happen. A touch gives a file the clock's time; mv keeps its mtime, and so
   * does the rename that commits an upload, whose last write may be any time ago. A refresh reads the
   * time once for a whole batch, so the answer may be `lag` old when the prior record is read. The
   * write-back's record does not depend on the prior one, so there the two steps are one.
   */
  function Step(cfg: Config, st: State, ev: Event): Option<State> {
    var s := st.slot;
    match ev
    case Tick(dt) => Some(st.(clock := st.clock + dt))
    case ReadPrior(answer, lag) => Some(st.(held := Some(Update(st, answer, st.clock - lag))))
    case WriteRecord => if st.held.None? then None else Some(Observe(st, st.held.value).(held := None))
    case RemoveCov => Some(Forget(st))
    case PutLive(bytes, age) =>
      Some(st.(slot := s.(live := Some(File(bytes, st.clock - age))), log := st.log + [Uploaded(st.clock - age)]))
    case RemoveLive => Some(st.(slot := s.(live := None)))
    case SetRecords(index, owner) => Some(st.(slot := s.(index := index, owner := owner)))
    case MvBack => if s.quar.None? then None else Some(st.(slot := Restored(s), origin := Absent))
    case MvIn => if s.live.None? then None else Some(st.(slot := Renamed(s), origin := ByOther))
    case TouchLive => if s.live.None? then None else Some(st.(slot := s.(live := Some(s.live.value.(mtime := st.clock)))))
    case TouchQuar => if s.quar.None? then None else Some(st.(slot := Stamped(s, st.clock)))
    case RemoveQuar => Some(st.(slot := Unlinked(s), origin := Absent))
    case Crash => Some(st.(pc := Idle, held := None))
    case Begin =>
      if st.pc.Idle? then Some(st.(pc := ToListQuar, sweep := st.sweep + 1, now := st.clock)) else None
    case Act(ok) => ActStep(cfg, st, ok)
    case Ask(verdict) => AskStep(cfg, st, verdict)
  }

  /** The state after a run from an empty data directory; None if some event could not happen. */
  function Run(cfg: Config, clock: Time, events: seq<Event>): Option<State> {
    if events == [] then Some(Initial(clock))
    else
      match Run(cfg, clock, events[..|events| - 1])
      case None => None
      case Some(st) => Step(cfg, st, events[|events| - 1])
  }

  // ----- what a destruction must have behind it -----

  /** The cached record was removed, or an answer that is not reclaimable was cached. */
  predicate Breaks(e: Entry) {
    e.Forgotten? || (e.Observed? && !e.reclaimable)
  }

  /** From the answer at j on, up to place k, the cached record was never removed and always reclaimable. */
  ghost predicate Unbroken(log: seq<Entry>, j: nat, k: nat)
    requires k <= |log|
  {
    forall x :: j <= x < k ==> !Breaks(log[x])
  }

  /** Before place k, a refresh that had read the prior record before place x wrote a reclaimable one after it. */
  ghost predicate Overwritten(log: seq<Entry>, x: nat, k: nat)
    requires k <= |log|
  {
    exists e :: x < e < k && log[e].Observed? && log[e].reclaimable && log[e].read <= x
  }

  /** From the answer at j on, up to place k, every break was overwritten by a refresh that had not seen it. */
  ghost predicate Backed(log: seq<Entry>, j: nat, f: Time, k: nat)
    requires k <= |log|
  {
    && j < k && ReclaimableAt(log, j, f)
    && forall x :: j <= x < k && Breaks(log[x]) ==> Overwritten(log, x, k)
  }

  /** Between j and k a refresh raced with a break: it read before and wrote after it. */
  ghost predicate Raced(log: seq<Entry>, j: nat, k: nat)
    requires k <= |log|
  {
    exists x :: j <= x < k && Breaks(log[x]) && Overwritten(log, x, k)
  }

  /** So such a race is the one way to a history with a break in it. */
  lemma UnbrokenIffUnraced(log: seq<Entry>, j: nat, f: Time, k: nat)
    requires k <= |log| && Backed(log, j, f, k)
    ensures Unbroken(log, j, k) <==> !Raced(log, j, k)
  {
  }

  /** Every answer cached from place c on was written no earlier than t. */
  ghost predicate NoneBefore(log: seq<Entry>, c: nat, k: nat, t: Time)
    requires k <= |log|
  {
    forall e :: c <= e < k && log[e].Observed? ==> log[e].written >= t
  }

  /** A reclaimable answer of time f was cached at place j. */
  ghost predicate ReclaimableAt(log: seq<Entry>, j: nat, f: Time) {
    j < |log| && log[j].Observed? && log[j].reclaimable && log[j].at == f
  }

  /** The cached record judged at place c goes back to an answer of time f. */
  ghost predicate JudgedSince(log: seq<Entry>, c: nat, sweep: nat, f: Time) {
    && c < |log| && log[c].Judged? && log[c].sweep == sweep && Backed(log, log[c].anchor, f, c)
  }

  /**
   * The move logged at i is justified: the cached answers were reclaimable from some f, at least
   * `retention` before the cycle's start, without a break but for those a refresh raced with; only answers written after that start can have
   * slipped in since the cache was read; the mtime that was read was as old; and this cycle's own live
   * recheck said reclaimable.
   */
  ghost predicate MoveJustified(cfg: Config, log: seq<Entry>, i: nat) {
    && i < |log| && log[i].Moved?
    && var m := log[i];
    && m.judged < m.ask < i && log[m.ask] == Asked(m.sweep, false, Reclaimable)
    && NoneBefore(log, m.judged, i, m.at)
    && (m.seen.Some? ==> m.at - m.seen.value >= cfg.retention)
    && exists f :: JudgedSince(log, m.judged, m.sweep, f) && m.at - f >= cfg.retention
  }

  /**
   * The destruction logged at u, of a file a sweep moved: an earlier cycle moved it, justifiedly, and
   * this cycle's own recheck after that move said reclaimable. If the move was stamped, it lies at
   * least `window` before this cycle.
   */
  ghost predicate SafeDestruction(cfg: Config, log: seq<Entry>, u: nat) {
    && u < |log| && log[u].Destroyed?
    && var d := log[u];
    && (d.origin.BySweeper? ==>
          && var i := d.origin.move;
          && MoveJustified(cfg, log, i)
          && i < d.ask < u && log[d.ask] == Asked(d.sweep, true, Reclaimable)
          && log[i].sweep < d.sweep && (d.origin.stamped ==> d.at - log[i].at >= cfg.window))
  }

  lemma JudgedGrows(log: seq<Entry>, log': seq<Entry>, c: nat, sweep: nat, f: Time)
    requires log <= log' && JudgedSince(log, c, sweep, f)
    ensures JudgedSince(log', c, sweep, f)
  {
    BackedGrows(log, log', log[c].anchor, f, c, c);
  }

  lemma MoveJustifiedPrefix(cfg: Config, log: seq<Entry>, log': seq<Entry>, i: nat)
    requires log <= log' && MoveJustified(cfg, log, i)
    ensures MoveJustified(cfg, log', i)
  {
    var m := log[i];
    var f :| JudgedSince(log, m.judged, m.sweep, f) && m.at - f >= cfg.retention;
    JudgedGrows(log, log', m.judged, m.sweep, f);
  }

  // ----- the invariant -----

  predicate InPhase1(pc: Pc) {
    pc.ToListQuar? || pc.AskQuar? || pc.ToRestore? || pc.ToWriteBack? || pc.ToUnlink?
  }

  predicate InQuarantinePhase(pc: Pc) {
    InPhase1(pc) || pc.ToDropIndex? || pc.ToDropOwner? || pc.ToDropCov?
  }

  /** A record whose marker was set at place j; k is where the log ended when it was the cached one. */
  ghost predicate RecordBacked(log: seq<Entry>, cov: Option<Record>, j: nat, k: nat)
    requires k <= |log|
  {
    cov.Some? ==>
      && (cov.value.answer.reclaimable <==> HasMarker(cov))
      && (HasMarker(cov) ==> Backed(log, j, cov.value.firstSeenReclaimable.value, k))
  }

  ghost predicate CovInv(st: State) {
    && st.now <= st.clock
    && RecordBacked(st.log, st.slot.cov, st.anchor, |st.log|)
    && (st.held.Some? ==>
          st.held.value.read <= |st.log| && RecordBacked(st.log, st.held.value.prior, st.held.value.anchor, st.held.value.read))
  }

  ghost predicate LogInv(cfg: Config, st: State) {
    && (forall i :: 0 <= i < |st.log| && st.log[i].Moved? ==>
          && MoveJustified(cfg, st.log, i) && st.log[i].at <= st.now
          && (if InPhase1(st.pc) then st.log[i].sweep < st.sweep else st.log[i].sweep <= st.sweep))
    && (forall u :: 0 <= u < |st.log| && st.log[u].Destroyed? ==> SafeDestruction(cfg, st.log, u))
  }

  ghost predicate OriginInv(st: State) {
    st.origin.BySweeper? ==>
      && st.slot.quar.Some? && st.origin.move < |st.log| && st.log[st.origin.move].Moved?
      && (st.origin.stamped ==> st.slot.quar.value.mtime >= st.log[st.origin.move].at)
  }

  /** The values the sweeper carries mean what they should. */
  ghost predicate PcInv(cfg: Config, st: State) {
    match st.pc
    case AskQuar(entryAt) => EntryInv(st, entryAt)
    case ToUnlink(entryAt, ask) =>
      && EntryInv(st, entryAt) && WindowElapsed(cfg, st.now, entryAt)
      && ask < |st.log| && st.log[ask] == Asked(st.sweep, true, Reclaimable)
      && (st.origin.BySweeper? ==> st.origin.move < ask)
    case ToReadMtime(cov, c) =>
      && NoneBefore(st.log, c, |st.log|, st.now)
      && cov.firstSeenReclaimable.Some? && JudgedSince(st.log, c, st.sweep, cov.firstSeenReclaimable.value)
    case AskObject(seen, c) => DueInv(cfg, st, seen, c)
    case ToSize(seen, c, ask) => DueInv(cfg, st, seen, c) && AskInv(st, c, ask)
    case ToRename(seen, c, ask) => DueInv(cfg, st, seen, c) && AskInv(st, c, ask)
    case ToStamp(move) => move < |st.log| && st.log[move].Moved? && st.log[move].at == st.now
    case _ => true
  }

  ghost predicate EntryInv(st: State, entryAt: Time) {
    st.origin.BySweeper? && st.origin.stamped ==>
      && st.origin.move < |st.log| && st.log[st.origin.move].Moved? && entryAt >= st.log[st.origin.move].at
  }

  ghost predicate DueInv(cfg: Config, st: State, seen: Option<Time>, c: nat) {
    && NoneBefore(st.log, c, |st.log|, st.now)
    && (seen.Some? ==> st.now - seen.value >= cfg.retention)
    && exists f :: JudgedSince(st.log, c, st.sweep, f) && st.now - f >= cfg.retention
  }

  ghost predicate AskInv(st: State, c: nat, ask: nat) {
    c < ask < |st.log| && st.log[ask] == Asked(st.sweep, false, Reclaimable)
  }

  ghost predicate Inv(cfg: Config, st: State) {
    CovInv(st) && LogInv(cfg, st) && OriginInv(st) && PcInv(cfg, st)
  }

  // ----- preservation, part by part -----

  /** A step that leaves the cached record alone logs at most one entry, not about the record. */
  ghost predicate KeepsCov(st: State, st': State) {
    && st'.slot.cov == st.slot.cov && st'.anchor == st.anchor && st'.now <= st'.clock
    && (st'.held == st.held || st'.held.None?)
    && (st'.log == st.log || (|st'.log| == |st.log| + 1 && st.log <= st'.log
                              && !st'.log[|st.log|].Observed? && !st'.log[|st.log|].Forgotten?))
  }

  lemma OverwrittenGrows(log: seq<Entry>, log': seq<Entry>, x: nat, k: nat, k': nat)
    requires log <= log' && k <= |log| && k <= k' <= |log'| && Overwritten(log, x, k)
    ensures Overwritten(log', x, k')
  {
  }

  /** More entries keep a record backed, up to any place without a break in between. */
  lemma BackedGrows(log: seq<Entry>, log': seq<Entry>, j: nat, f: Time, k: nat, k': nat)
    requires log <= log' && k <= |log| && k <= k' <= |log'| && Backed(log, j, f, k)
    requires forall x :: k <= x < k' && Breaks(log'[x]) ==> Overwritten(log', x, k')
    ensures Backed(log', j, f, k')
  {
    forall x | j <= x < k' && Breaks(log'[x])
      ensures Overwritten(log', x, k')
    {
      if x < k {
        OverwrittenGrows(log, log', x, k, k');
      }
    }
  }

  lemma RecordBackedGrows(log: seq<Entry>, log': seq<Entry>, cov: Option<Record>, j: nat, k: nat, k': nat)
    requires log <= log' && k <= |log| && k <= k' <= |log'| && RecordBacked(log, cov, j, k)
    requires forall x :: k <= x < k' && Breaks(log'[x]) ==> Overwritten(log', x, k')
    ensures RecordBacked(log', cov, j, k')
  {
    if HasMarker(cov) {
      BackedGrows(log, log', j, cov.value.firstSeenReclaimable.value, k, k');
    }
  }

  lemma HeldKept(st: State, st': State)
    requires CovInv(st) && st.log <= st'.log && (st'.held == st.held || st'.held.None?)
    ensures st'.held.Some? ==>
              && st'.held.value.read <= |st'.log|
              && RecordBacked(st'.log, st'.held.value.prior, st'.held.value.anchor, st'.held.value.read)
  {
    if st'.held.Some? {
      var h := st.held.value;
      RecordBackedGrows(st.log, st'.log, h.prior, h.anchor, h.read, h.read);
    }
  }

  lemma CovKept(st: State, st': State)
    requires CovInv(st) && KeepsCov(st, st')
    ensures CovInv(st')
  {
    RecordBackedGrows(st.log, st'.log, st.slot.cov, st.anchor, |st.log|, |st'.log|);
    HeldKept(st, st');
  }

  /** Writing a record: a marker taken over stays backed, for the new entry overwrites what came since. */
  lemma CovObserved(st: State, h: Held)
    requires CovInv(st) && h.read <= |st.log| && RecordBacked(st.log, h.prior, h.anchor, h.read)
    ensures CovInv(Observe(st, h))
  {
    var st' := Observe(st, h);
    HeldKept(st, st');
    if h.answer.reclaimable && HasMarker(h.prior) {
      forall x | h.read <= x < |st'.log| && Breaks(st'.log[x])
        ensures Overwritten(st'.log, x, |st'.log|)
      {
        assert st'.log[|st.log|].read <= x;
      }
      BackedGrows(st.log, st'.log, h.anchor, h.prior.value.firstSeenReclaimable.value, h.read, |st'.log|);
    }
  }

  predicate WritesCov(pc: Pc) {
    pc.ToWriteBack? || pc.ToDropCov?
  }

  lemma ActKeepsCov(cfg: Config, st: State, ok: bool)
    requires st.now <= st.clock && ActStep(cfg, st, ok).Some? && !(ok && WritesCov(st.pc))
    ensures KeepsCov(st, ActStep(cfg, st, ok).value)
  {
  }

  lemma CovInvStep(cfg: Config, st: State, ev: Event)
    requires CovInv(st) && Step(cfg, st, ev).Some?
    ensures CovInv(Step(cfg, st, ev).value)
  {
    var st' := Step(cfg, st, ev).value;
    match ev {
      case WriteRecord =>
        CovObserved(st, st.held.value);
        HeldKept(st, st');
      case ReadPrior(_, _) =>
      case RemoveCov =>
        HeldKept(st, st');
      case Act(ok) =>
        if st.pc.ToWriteBack? && ok {
          CovObserved(st, Update(st, COVERED_ANSWER, st.now));
          CovKept(Observe(st, Update(st, COVERED_ANSWER, st.now)), st');
        } else if st.pc.ToDropCov? && ok {
          HeldKept(st, st');
        } else {
          ActKeepsCov(cfg, st, ok);
          CovKept(st, st');
        }
      case _ =>
        CovKept(st, st');
    }
  }

  /** What a step does to the log: it only appends, Moved and Destroyed only in their own places. */
  lemma StepAppends(cfg: Config, st: State, ev: Event)
    requires Step(cfg, st, ev).Some?
    ensures var st' := Step(cfg, st, ev).value;
            && st.log <= st'.log && st.sweep <= st'.sweep
            && (ev != Begin ==> st'.sweep == st.sweep && st'.now == st.now)
            && (forall i :: |st.log| <= i < |st'.log| && st'.log[i].Moved? ==>
                  st.pc.ToRename? && ev == Act(true) && st.slot.live.Some? && i == |st.log|)
            && (forall i :: |st.log| <= i < |st'.log| && st'.log[i].Destroyed? ==>
                  st.pc.ToUnlink? && ev == Act(true) && st.slot.quar.Some? && i == |st.log|)
  {
    if ev.Act? {
      ActAppends(cfg, st, ev.ok);
    }
  }

  lemma ActAppends(cfg: Config, st: State, ok: bool)
    requires ActStep(cfg, st, ok).Some?
    ensures var st' := ActStep(cfg, st, ok).value;
            && st.log <= st'.log && st'.sweep == st.sweep && st'.now == st.now && st'.clock == st.clock
            && (forall i :: |st.log| <= i < |st'.log| && st'.log[i].Moved? ==>
                  st.pc.ToRename? && ok && st.slot.live.Some? && i == |st.log|)
            && (forall i :: |st.log| <= i < |st'.log| && st'.log[i].Destroyed? ==>
                  st.pc.ToUnlink? && ok && st.slot.quar.Some? && i == |st.log|)
            && (InPhase1(st'.pc) ==> InPhase1(st.pc))
  {
  }

  lemma LogInvStep(cfg: Config, st: State, ev: Event)
    requires Inv(cfg, st) && Step(cfg, st, ev).Some?
    ensures LogInv(cfg, Step(cfg, st, ev).value)
  {
    var st' := Step(cfg, st, ev).value;
    StepAppends(cfg, st, ev);
    if ev.Act? { ActAppends(cfg, st, ev.ok); }
    forall i | 0 <= i < |st'.log| && st'.log[i].Moved?
      ensures MoveJustified(cfg, st'.log, i) && st'.log[i].at <= st'.now
      ensures if InPhase1(st'.pc) then st'.log[i].sweep < st'.sweep else st'.log[i].sweep <= st'.sweep
    {
      if i < |st.log| {
        MoveJustifiedPrefix(cfg, st.log, st'.log, i);
      } else {
        NewMoveJustified(cfg, st);
      }
    }
    forall u | 0 <= u < |st'.log| && st'.log[u].Destroyed?
      ensures SafeDestruction(cfg, st'.log, u)
    {
      if u < |st.log| {
        SafeDestructionPrefix(cfg, st.log, st'.log, u);
      } else {
        NewDestructionSafe(cfg, st);
      }
    }
  }

  lemma NewMoveJustified(cfg: Config, st: State)
    requires Inv(cfg, st) && st.pc.ToRename? && st.slot.live.Some?
    ensures var st' := ActStep(cfg, st, true).value;
            |st'.log| == |st.log| + 1 && MoveJustified(cfg, st'.log, |st.log|) && st'.log[|st.log|].at == st.now
            && st'.log[|st.log|].sweep == st.sweep && !InPhase1(st'.pc)
  {
    var st' := ActStep(cfg, st, true).value;
    var c := st.pc.judged;
    var f :| JudgedSince(st.log, c, st.sweep, f) && st.now - f >= cfg.retention;
    JudgedGrows(st.log, st'.log, c, st.sweep, f);
  }

  lemma SafeDestructionPrefix(cfg: Config, log: seq<Entry>, log': seq<Entry>, u: nat)
    requires log <= log' && SafeDestruction(cfg, log, u)
    ensures SafeDestruction(cfg, log', u)
  {
    var d := log[u];
    if d.origin.BySweeper? {
      MoveJustifiedPrefix(cfg, log, log', d.origin.move);
    }
  }

  lemma NewDestructionSafe(cfg: Config, st: State)
    requires Inv(cfg, st) && st.pc.ToUnlink? && st.slot.quar.Some?
    ensures SafeDestruction(cfg, ActStep(cfg, st, true).value.log, |st.log|)
  {
    var st' := ActStep(cfg, st, true).value;
    if st.origin.BySweeper? {
      MoveJustifiedPrefix(cfg, st.log, st'.log, st.origin.move);
    }
  }

  lemma OriginInvStep(cfg: Config, st: State, ev: Event)
    requires Inv(cfg, st) && Step(cfg, st, ev).Some?
    ensures OriginInv(Step(cfg, st, ev).value)
  {
    StepAppends(cfg, st, ev);
    if ev.Act? && InQuarantinePhase(st.pc) {
      QuarantineOriginInv(cfg, st, ev.ok);
    } else if ev.Act? {
      ObjectsOriginInv(cfg, st, ev.ok);
    }
  }

  lemma QuarantineOriginInv(cfg: Config, st: State, ok: bool)
    requires OriginInv(st) && InQuarantinePhase(st.pc) && ActStep(cfg, st, ok).Some?
    ensures OriginInv(ActStep(cfg, st, ok).value)
  {
  }

  lemma ObjectsOriginInv(cfg: Config, st: State, ok: bool)
    requires OriginInv(st) && LogInv(cfg, st) && PcInv(cfg, st) && !InQuarantinePhase(st.pc) && ActStep(cfg, st, ok).Some?
    ensures OriginInv(ActStep(cfg, st, ok).value)
  {
  }

  /** An environment step, or a crash, leaves the sweeper's values meaning what they did. */
  lemma PcInvKept(cfg: Config, st: State, st': State)
    requires Inv(cfg, st) && st'.pc == st.pc && st.log <= st'.log && st'.sweep == st.sweep && st'.now == st.now
    requires forall e :: |st.log| <= e < |st'.log| && st'.log[e].Observed? ==> st'.log[e].written >= st.now
    requires st'.origin.BySweeper? ==> st'.origin == st.origin
    ensures PcInv(cfg, st')
  {
    if st.pc.AskObject? || st.pc.ToSize? || st.pc.ToRename? {
      DueKept(cfg, st, st', st.pc.seen, st.pc.judged);
    } else if st.pc.ToReadMtime? {
      JudgedGrows(st.log, st'.log, st.pc.judged, st.sweep, st.pc.cov.firstSeenReclaimable.value);
    }
  }

  lemma DueKept(cfg: Config, st: State, st': State, seen: Option<Time>, c: nat)
    requires DueInv(cfg, st, seen, c) && st.log <= st'.log && st'.sweep == st.sweep && st'.now == st.now
    requires forall e :: |st.log| <= e < |st'.log| && st'.log[e].Observed? ==> st'.log[e].written >= st.now
    ensures DueInv(cfg, st', seen, c)
  {
    var f :| JudgedSince(st.log, c, st.sweep, f) && st.now - f >= cfg.retention;
    JudgedGrows(st.log, st'.log, c, st.sweep, f);
  }

  lemma ActPcInvQuarantine(cfg: Config, st: State, ok: bool)
    requires Inv(cfg, st) && InQuarantinePhase(st.pc) && ActStep(cfg, st, ok).Some?
    ensures PcInv(cfg, ActStep(cfg, st, ok).value)
  {
    if st.pc.ToListQuar? {
      assert ActStep(cfg, st, ok).value.pc.AskQuar? ==> EntryInv(st, st.slot.quar.value.mtime);
    } else {
      assert !ActStep(cfg, st, ok).value.pc.AskQuar?;
    }
  }

  lemma ReadPcInv(cfg: Config, st: State, ok: bool)
    requires CovInv(st) && PcInv(cfg, st) && (st.pc.ToReadCov? || st.pc.ToReadMtime?) && ActStep(cfg, st, ok).Some?
    ensures PcInv(cfg, ActStep(cfg, st, ok).value)
  {
    var st' := ActStep(cfg, st, ok).value;
    if st.pc.ToReadMtime? {
      JudgedGrows(st.log, st'.log, st.pc.judged, st.sweep, st.pc.cov.firstSeenReclaimable.value);
    } else if st'.pc.ToReadMtime? {
      BackedGrows(st.log, st'.log, st.anchor, st.slot.cov.value.firstSeenReclaimable.value, |st.log|, |st.log|);
    }
  }

  lemma ActPcInvObjects(cfg: Config, st: State, ok: bool)
    requires Inv(cfg, st) && !InQuarantinePhase(st.pc) && ActStep(cfg, st, ok).Some?
    ensures PcInv(cfg, ActStep(cfg, st, ok).value)
  {
    if st.pc.ToReadCov? || st.pc.ToReadMtime? {
      ReadPcInv(cfg, st, ok);
    } else if st.pc.ToSize? {
      DueKept(cfg, st, ActStep(cfg, st, ok).value, st.pc.seen, st.pc.judged);
    }
  }

  lemma AskPcInv(cfg: Config, st: State, verdict: Recheck)
    requires Inv(cfg, st) && AskStep(cfg, st, verdict).Some?
    ensures PcInv(cfg, AskStep(cfg, st, verdict).value)
  {
    if st.pc.AskObject? {
      DueKept(cfg, st, AskStep(cfg, st, verdict).value, st.pc.seen, st.pc.judged);
    }
  }

  lemma PcInvStep(cfg: Config, st: State, ev: Event)
    requires Inv(cfg, st) && Step(cfg, st, ev).Some?
    ensures PcInv(cfg, Step(cfg, st, ev).value)
  {
    match ev {
      case Act(ok) =>
        if InQuarantinePhase(st.pc) {
          ActPcInvQuarantine(cfg, st, ok);
        } else {
          ActPcInvObjects(cfg, st, ok);
        }
      case Ask(verdict) => AskPcInv(cfg, st, verdict);
      case Begin =>
      case Crash =>
      case _ => PcInvKept(cfg, st, Step(cfg, st, ev).value);
    }
  }

  lemma {:induction false} RunInv(cfg: Config, clock: Time, events: seq<Event>)
    requires Run(cfg, clock, events).Some?
    ensures Inv(cfg, Run(cfg, clock, events).value)
  {
    if events != [] {
      var before, ev := events[..|events| - 1], events[|events| - 1];
      RunInv(cfg, clock, before);
      var st := Run(cfg, clock, before).value;
      CovInvStep(cfg, st, ev);
      LogInvStep(cfg, st, ev);
      OriginInvStep(cfg, st, ev);
      PcInvStep(cfg, st, ev);
    }
  }

  // ----- whole-run safety -----

  /**
   * Whole-run GC safety: in any run, every destruction of a file that a sweep moved has behind it a
   * reclaimable history of at least `retention`, and an explicit live recheck in each of two different
   * cycles; and between those, if the move was stamped, at least `window` in quarantine. The history has
   * no break in it if and only if no refresh raced with one, reading the record before the break and
   * writing it after.
   */
  lemma DestructionIsSafe(cfg: Config, clock: Time, events: seq<Event>, u: nat)
    requires Run(cfg, clock, events).Some?
    requires u < |Run(cfg, clock, events).value.log| && Run(cfg, clock, events).value.log[u].Destroyed?
    ensures var log := Run(cfg, clock, events).value.log;
            && SafeDestruction(cfg, log, u)
            && (log[u].origin.BySweeper? ==>
                  var c := log[log[u].origin.move].judged;
                  Unbroken(log, log[c].anchor, c) <==> !Raced(log, log[c].anchor, c))
  {
    RunInv(cfg, clock, events);
    var log := Run(cfg, clock, events).value.log;
    if log[u].origin.BySweeper? {
      var m := log[log[u].origin.move];
      var f :| JudgedSince(log, m.judged, m.sweep, f) && m.at - f >= cfg.retention;
      UnbrokenIffUnraced(log, log[m.judged].anchor, f, m.judged);
    }
  }

  // ----- building runs -----

  /** Runs grow one event at a time. */
  lemma Extend(cfg: Config, clock: Time, events: seq<Event>, st: State, ev: Event)
      returns (events': seq<Event>, st': State)
    requires Run(cfg, clock, events) == Some(st) && Step(cfg, st, ev).Some?
    ensures events' == events + [ev] && Step(cfg, st, ev) == Some(st') && Run(cfg, clock, events') == Some(st')
  {
    events', st' := events + [ev], Step(cfg, st, ev).value;
    assert events'[..|events|] == events;
  }

  lemma ExtendMore(cfg: Config, clock: Time, events: seq<Event>, more: seq<Event>, st: State, ev: Event)
      returns (more': seq<Event>, st': State)
    requires Run(cfg, clock, events + more) == Some(st) && Step(cfg, st, ev).Some?
    ensures more' == more + [ev] && Step(cfg, st, ev) == Some(st') && Run(cfg, clock, events + more') == Some(st')
  {
    more', st' := more + [ev], Step(cfg, st, ev).value;
    assert (events + more')[..|events + more|] == events + more;
  }

  /** What is logged stays logged. */
  lemma {:induction false} RunGrows(cfg: Config, clock: Time, events: seq<Event>, more: seq<Event>)
    requires Run(cfg, clock, events).Some? && Run(cfg, clock, events + more).Some?
    ensures Run(cfg, clock, events).value.log <= Run(cfg, clock, events + more).value.log
    decreases |more|
  {
    if more == [] {
      assert events + more == events;
    } else {
      var before, ev := more[..|more| - 1], more[|more| - 1];
      assert (events + more)[..|events + more| - 1] == events + before;
      RunGrows(cfg, clock, events, before);
      StepAppends(cfg, Run(cfg, clock, events + before).value, ev);
    }
  }

  const ORPHANED_ANSWER := Answer("orphaned", true, "", "")

  /** A run to a cycle's start: an upload, a reclaimable answer, and `retention` later the cycle. */
  lemma RunToCycle(cfg: Config, bytes: seq<byte>) returns (events: seq<Event>, st: State)
    requires cfg.Valid()
    ensures Run(cfg, 0, events) == Some(st) && st.clock == st.now == cfg.retention && st.pc.ToListQuar?
    ensures st.slot.live == Some(File(bytes, 0)) && st.slot.quar == None && st.origin == Absent
    ensures st.slot.cov.Some? && st.slot.cov.value.answer.reclaimable && st.slot.cov.value.firstSeenReclaimable == Some(0)
  {
    events, st := [], Initial(0);
    events, st := Extend(cfg, 0, events, st, PutLive(bytes, 0));
    events, st := Extend(cfg, 0, events, st, ReadPrior(ORPHANED_ANSWER, 0));
    events, st := Extend(cfg, 0, events, st, WriteRecord);
    assert st.slot.cov.value.firstSeenReclaimable == Some(0);
    events, st := Extend(cfg, 0, events, st, Tick(cfg.retention));
    events, st := Extend(cfg, 0, events, st, Begin);
  }

  /** On to the live recheck of phase 2. */
  lemma RunToAsk(cfg: Config, bytes: seq<byte>) returns (events: seq<Event>, st: State)
    requires cfg.Valid()
    ensures Run(cfg, 0, events) == Some(st) && st.clock == st.now == cfg.retention
    ensures st.pc.AskObject? && st.pc.seen == Some(0)
    ensures st.slot.cov.Some? && st.slot.cov.value.answer.reclaimable && st.slot.cov.value.firstSeenReclaimable == Some(0)
    ensures st.slot.live == Some(File(bytes, 0)) && st.slot.quar == None && st.origin == Absent
  {
    events, st := RunToCycle(cfg, bytes);
    ghost var cov := st.slot.cov.value;
    events, st := Extend(cfg, 0, events, st, Act(true));
    events, st := Extend(cfg, 0, events, st, Act(true));
    assert st.pc == ToReadCov;
    events, st := Extend(cfg, 0, events, st, Act(true));
    assert st.pc.ToReadMtime? && st.pc.cov == cov;
    assert FirstSeen(cov, Some(0), st.now) == 0;
    events, st := Extend(cfg, 0, events, st, Act(true));
  }

  /** On to the moment before the rename. */
  lemma RunToRename(cfg: Config, bytes: seq<byte>) returns (events: seq<Event>, st: State)
    requires cfg.Valid()
    ensures Run(cfg, 0, events) == Some(st) && st.clock == st.now == cfg.retention
    ensures st.pc.ToRename? && st.pc.seen == Some(0)
    ensures st.slot.cov.Some? && st.slot.cov.value.answer.reclaimable && st.slot.cov.value.firstSeenReclaimable == Some(0)
    ensures st.slot.live == Some(File(bytes, 0)) && st.slot.quar == None && st.origin == Absent
  {
    events, st := RunToAsk(cfg, bytes);
    events, st := Extend(cfg, 0, events, st, Ask(Reclaimable));
    events, st := Extend(cfg, 0, events, st, Act(true));
  }

  // ----- no usable answer, no destruction -----

  ghost predicate NoneUsable(events: seq<Event>) {
    forall k :: 0 <= k < |events| && events[k].Ask? ==> events[k].verdict.Unusable?
  }

  ghost predicate Harmless(pc: Pc) {
    pc.Idle? || pc.ToListQuar? || pc.AskQuar? || pc.ToListObjects? || pc.ToReadCov? || pc.ToReadMtime? || pc.AskObject?
  }

  ghost predicate NothingDone(log: seq<Entry>) {
    forall k :: 0 <= k < |log| ==> !log[k].Moved? && !log[k].MovedBack? && !log[k].Destroyed?
  }

  lemma HarmlessStep(cfg: Config, st: State, ev: Event)
    requires Harmless(st.pc) && NothingDone(st.log) && Step(cfg, st, ev).Some?
    requires ev.Ask? ==> ev.verdict.Unusable?
    ensures Harmless(Step(cfg, st, ev).value.pc) && NothingDone(Step(cfg, st, ev).value.log)
  {
  }

  /**
   * In a run where no live recheck yields a usable answer, no cycle moves, restores or destroys
   * anything, whatever the refreshes have put in the cache.
   */
  lemma {:induction false} NoAnswerNoDestruction(cfg: Config, clock: Time, events: seq<Event>)
    requires Run(cfg, clock, events).Some? && NoneUsable(events)
    ensures Harmless(Run(cfg, clock, events).value.pc)
    ensures NothingDone(Run(cfg, clock, events).value.log)
  {
    if events != [] {
      var before, ev := events[..|events| - 1], events[|events| - 1];
      NoAnswerNoDestruction(cfg, clock, before);
      HarmlessStep(cfg, Run(cfg, clock, before).value, ev);
    }
  }

  // ----- an undisturbed cycle is the one RunOnce performs -----

  /** The run goes on from `head` with nothing but the sweeper acting. */
  ghost predicate Continues(events: seq<Event>, head: seq<Event>) {
    head <= events && forall k :: |head| <= k < |events| ==> events[k].Act? || events[k].Ask?
  }

  lemma Go(cfg: Config, clock: Time, head: seq<Event>, events: seq<Event>, st: State, ev: Event)
      returns (events': seq<Event>, st': State)
    requires Run(cfg, clock, events) == Some(st) && Continues(events, head) && (ev.Act? || ev.Ask?)
    requires Step(cfg, st, ev).Some?
    ensures Run(cfg, clock, events') == Some(st') && Continues(events', head) && Step(cfg, st, ev) == Some(st')
  {
    events', st' := Extend(cfg, clock, events, st, ev);
  }

  lemma StampRun(cfg: Config, clock: Time, head: seq<Event>, events: seq<Event>, st: State, io: Faults)
      returns (events': seq<Event>, st': State)
    requires Run(cfg, clock, events) == Some(st) && Continues(events, head) && st.pc.ToStamp?
    ensures Run(cfg, clock, events') == Some(st') && Continues(events', head) && st'.pc.Idle?
    ensures st'.slot == if io.stamp then st.slot else Stamped(st.slot, st.now)
  {
    events', st' := Go(cfg, clock, head, events, st, Act(!io.stamp));
  }

  lemma RenameRun(cfg: Config, clock: Time, head: seq<Event>, events: seq<Event>, st: State, io: Faults)
      returns (events': seq<Event>, st': State)
    requires Run(cfg, clock, events) == Some(st) && Continues(events, head) && st.pc.ToRename? && st.slot.live.Some?
    ensures Run(cfg, clock, events') == Some(st') && Continues(events', head) && st'.pc.Idle?
    ensures st'.slot == if io.rename then st.slot
                        else if io.stamp then Renamed(st.slot) else Stamped(Renamed(st.slot), st.now)
  {
    events', st' := Go(cfg, clock, head, events, st, Act(!io.rename));
    if !io.rename {
      assert st'.pc.ToStamp? && st'.slot == Renamed(st.slot) && st'.now == st.now;
      events', st' := StampRun(cfg, clock, head, events', st', io);
    }
  }

  /** The end of phase 2: size, rename, stamp. */
  lemma MoveRun(cfg: Config, clock: Time, head: seq<Event>, events: seq<Event>, st: State, io: Faults)
      returns (events': seq<Event>, st': State)
    requires Run(cfg, clock, events) == Some(st) && Continues(events, head) && st.pc.ToSize? && st.slot.live.Some?
    ensures Run(cfg, clock, events') == Some(st') && Continues(events', head) && st'.pc.Idle?
    ensures st'.slot == if io.size || io.rename then st.slot
                        else if io.stamp then Renamed(st.slot) else Stamped(Renamed(st.slot), st.now)
  {
    events', st' := Go(cfg, clock, head, events, st, Act(!io.size));
    if !io.size {
      assert st'.pc.ToRename? && st'.slot == st.slot && st'.now == st.now;
      events', st' := RenameRun(cfg, clock, head, events', st', io);
    }
  }

  lemma MtimeRun(cfg: Config, clock: Time, head: seq<Event>, events: seq<Event>, st: State, io: Faults)
      returns (events': seq<Event>, st': State)
    requires Run(cfg, clock, events) == Some(st) && Continues(events, head)
    requires st.pc.ToReadMtime? && st.slot.live.Some?
    ensures Run(cfg, clock, events') == Some(st') && Continues(events', head)
    ensures st'.slot == st.slot && st'.now == st.now
    ensures if Eligible(cfg, st.now, FirstSeen(st.pc.cov, if io.readMtime then None else Some(st.slot.live.value.mtime), st.now))
            then st'.pc.AskObject? else st'.pc.Idle?
  {
    events', st' := Go(cfg, clock, head, events, st, Act(!io.readMtime));
  }

  lemma CacheRun(cfg: Config, clock: Time, head: seq<Event>, events: seq<Event>, st: State, io: Faults)
      returns (events': seq<Event>, st': State)
    requires Run(cfg, clock, events) == Some(st) && Continues(events, head)
    requires st.pc.ToReadCov? && st.slot.live.Some?
    ensures Run(cfg, clock, events') == Some(st') && Continues(events', head)
    ensures st'.slot == st.slot && st'.now == st.now
    ensures if Due(cfg, st.now, st.slot, io) then st'.pc.AskObject? else st'.pc.Idle?
  {
    events', st' := Go(cfg, clock, head, events, st, Act(!io.readCov));
    if st'.pc.ToReadMtime? {
      assert st'.pc.cov == st.slot.cov.value && st'.slot == st.slot && st'.now == st.now;
      events', st' := MtimeRun(cfg, clock, head, events', st', io);
    }
  }

  lemma Phase2Run(cfg: Config, clock: Time, head: seq<Event>, events: seq<Event>, st: State, inObjects: Recheck, io: Faults)
      returns (events': seq<Event>, st': State)
    requires Run(cfg, clock, events) == Some(st) && Continues(events, head) && st.pc.ToListObjects?
    ensures Run(cfg, clock, events') == Some(st') && Continues(events', head) && st'.pc.Idle?
    ensures st'.slot == Phase2(cfg, st.now, st.slot, inObjects, io)
  {
    events', st' := Go(cfg, clock, head, events, st, Act(true));
    if st'.pc.ToReadCov? {
      assert st'.slot == st.slot && st'.now == st.now;
      events', st' := CacheRun(cfg, clock, head, events', st', io);
      if st'.pc.AskObject? {
        events', st' := AskRun(cfg, clock, head, events', st', inObjects, io);
      }
    }
  }

  lemma AskRun(cfg: Config, clock: Time, head: seq<Event>, events: seq<Event>, st: State, inObjects: Recheck, io: Faults)
      returns (events': seq<Event>, st': State)
    requires Run(cfg, clock, events) == Some(st) && Continues(events, head) && st.pc.AskObject?
    requires st.slot.live.Some? && Due(cfg, st.now, st.slot, io)
    ensures Run(cfg, clock, events') == Some(st') && Continues(events', head) && st'.pc.Idle?
    ensures st'.slot == Phase2(cfg, st.now, st.slot, inObjects, io)
  {
    events', st' := Go(cfg, clock, head, events, st, Ask(inObjects));
    if inObjects.Reclaimable? {
      assert st'.pc.ToSize? && st'.slot == st.slot && st'.now == st.now;
      events', st' := MoveRun(cfg, clock, head, events', st', io);
    }
  }

  lemma RecordsRun(cfg: Config, clock: Time, head: seq<Event>, events: seq<Event>, st: State, io: Faults)
      returns (events': seq<Event>, st': State)
    requires Run(cfg, clock, events) == Some(st) && Continues(events, head) && st.pc.ToDropOwner?
    ensures Run(cfg, clock, events') == Some(st') && Continues(events', head)
    ensures st'.pc.ToListObjects? && st'.now == st.now
    ensures st'.slot == CovDropped(OwnerDropped(st.slot, io.dropOwner), io.dropCov)
  {
    events', st' := Go(cfg, clock, head, events, st, Act(!io.dropOwner));
    assert st'.pc.ToDropCov? && st'.slot == OwnerDropped(st.slot, io.dropOwner) && st'.now == st.now;
    events', st' := Go(cfg, clock, head, events', st', Act(!io.dropCov));
  }

  lemma UnlinkRun(cfg: Config, clock: Time, head: seq<Event>, events: seq<Event>, st: State, io: Faults)
      returns (events': seq<Event>, st': State)
    requires Run(cfg, clock, events) == Some(st) && Continues(events, head) && st.pc.ToUnlink? && st.slot.quar.Some?
    ensures Run(cfg, clock, events') == Some(st') && Continues(events', head)
    ensures st'.pc.ToListObjects? && st'.now == st.now
    ensures st'.slot == if io.unlink then st.slot else DestroyedSlot(st.slot, io)
  {
    events', st' := Go(cfg, clock, head, events, st, Act(!io.unlink));
    if !io.unlink {
      assert st'.pc.ToDropIndex? && st'.slot == Unlinked(st.slot) && st'.now == st.now;
      events', st' := Go(cfg, clock, head, events', st', Act(!io.dropIndex));
      assert st'.pc.ToDropOwner? && st'.slot == IndexDropped(Unlinked(st.slot), io.dropIndex) && st'.now == st.now;
      events', st' := RecordsRun(cfg, clock, head, events', st', io);
    }
  }

  lemma RestoreRun(cfg: Config, clock: Time, head: seq<Event>, events: seq<Event>, st: State, io: Faults)
      returns (events': seq<Event>, st': State)
    requires Run(cfg, clock, events) == Some(st) && Continues(events, head) && st.pc.ToRestore? && st.slot.quar.Some?
    ensures Run(cfg, clock, events') == Some(st') && Continues(events', head)
    ensures st'.pc.ToListObjects? && st'.now == st.now
    ensures st'.slot == if io.restore then st.slot
                        else if io.writeBack then Restored(st.slot) else WrittenBack(Restored(st.slot), st.now)
  {
    events', st' := Go(cfg, clock, head, events, st, Act(!io.restore));
    if !io.restore {
      assert st'.pc.ToWriteBack? && st'.slot == Restored(st.slot) && st'.now == st.now;
      events', st' := Go(cfg, clock, head, events', st', Act(!io.writeBack));
    }
  }

  lemma AnswerRun(cfg: Config, clock: Time, head: seq<Event>, events: seq<Event>, st: State, inQuar: Recheck, io: Faults)
      returns (events': seq<Event>, st': State)
    requires Run(cfg, clock, events) == Some(st) && Continues(events, head) && !io.info
    requires st.slot.quar.Some? && st.pc == AskQuar(st.slot.quar.value.mtime)
    ensures Run(cfg, clock, events') == Some(st') && Continues(events', head)
    ensures st'.pc.ToListObjects? && st'.now == st.now && st'.slot == Phase1(cfg, st.now, st.slot, inQuar, io)
  {
    events', st' := Go(cfg, clock, head, events, st, Ask(inQuar));
    assert st'.slot == st.slot && st'.now == st.now;
    if st'.pc.ToRestore? {
      events', st' := RestoreRun(cfg, clock, head, events', st', io);
    } else if st'.pc.ToUnlink? {
      events', st' := UnlinkRun(cfg, clock, head, events', st', io);
    }
  }

  lemma Phase1Run(cfg: Config, clock: Time, head: seq<Event>, events: seq<Event>, st: State, inQuar: Recheck, io: Faults)
      returns (events': seq<Event>, st': State)
    requires Run(cfg, clock, events) == Some(st) && Continues(events, head) && st.pc.ToListQuar?
    ensures Run(cfg, clock, events') == Some(st') && Continues(events', head)
    ensures st'.pc.ToListObjects? && st'.now == st.now && st'.slot == Phase1(cfg, st.now, st.slot, inQuar, io)
  {
    events', st' := Go(cfg, clock, head, events, st, Act(!io.info));
    if st'.pc.AskQuar? {
      assert st'.slot == st.slot && st'.now == st.now && st'.pc == AskQuar(st.slot.quar.value.mtime);
      events', st' := AnswerRun(cfg, clock, head, events', st', inQuar, io);
    }
  }

  /** Left alone, the small steps of a run add up to the cycle that RunOnce is proved to perform. */
  lemma CycleIsRun(cfg: Config, clock: Time, events: seq<Event>, st: State,
                   inQuar: Recheck, inObjects: Recheck, io: Faults) returns (events': seq<Event>, st': State)
    requires Run(cfg, clock, events) == Some(st) && st.pc.Idle?
    ensures Continues(events', events + [Begin])
    ensures Run(cfg, clock, events') == Some(st') && st'.pc.Idle?
    ensures st'.slot == Cycle(cfg, st.clock, st.slot, inQuar, inObjects, io)
  {
    events', st' := Extend(cfg, clock, events, st, Begin);
    var head := events';
    events', st' := Phase1Run(cfg, clock, head, events', st', inQuar, io);
    events', st' := Phase2Run(cfg, clock, head, events', st', inObjects, io);
  }
}
