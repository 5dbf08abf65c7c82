/**
 * What protects a file in objects/ from being moved to quarantine too soon: a file that came back from
 * quarantine, a new upload, and a file that a cycle has just restored.
 */
module GcRescue {
  import opened Basics
  import opened Coverage
  import opened SweepSpec
  import opened GcRun

  // ----- moves a run can still lead to -----

  /** From place `from` on, cycle number `sweep` moved the root. */
  ghost predicate MovedIn(log: seq<Entry>, from: nat, sweep: nat) {
    exists i :: from <= i < |log| && log[i].Moved? && log[i].sweep == sweep
  }

  /** Some continuation of the run moves the root in that cycle. */
  ghost predicate CanMove(cfg: Config, clock: Time, events: seq<Event>, from: nat, sweep: nat) {
    exists more :: Run(cfg, clock, events + more).Some? && MovedIn(Run(cfg, clock, events + more).value.log, from, sweep)
  }

  predicate AboutToMove(pc: Pc) {
    pc.AskObject? || pc.ToSize? || pc.ToRename?
  }

  /** The end of phase 2, for the live file as it now is. */
  lemma FinishRename(cfg: Config, clock: Time, events: seq<Event>, more: seq<Event>, st: State)
      returns (more': seq<Event>, st': State)
    requires Run(cfg, clock, events + more) == Some(st) && (st.pc.ToSize? || st.pc.ToRename?) && st.slot.live.Some?
    ensures Run(cfg, clock, events + more') == Some(st')
    ensures st'.log == st.log + [Moved(st.sweep, st.now, st.pc.judged, st.pc.ask, st.slot.live.value.mtime, st.pc.seen)]
  {
    more', st' := more, st;
    if st.pc.ToSize? {
      more', st' := ExtendMore(cfg, clock, events, more', st', Act(true));
      assert st' == st.(pc := ToRename(st.pc.seen, st.pc.judged, st.pc.ask));
    }
    more', st' := ExtendMore(cfg, clock, events, more', st', Act(true));
  }

  /** Past the mtime check there is nothing left that could stop a move. */
  lemma FinishMove(cfg: Config, clock: Time, events: seq<Event>, more: seq<Event>, st: State)
      returns (more': seq<Event>, st': State)
    requires Run(cfg, clock, events + more) == Some(st) && AboutToMove(st.pc) && st.slot.live.Some?
    ensures Run(cfg, clock, events + more') == Some(st')
    ensures |st.log| < |st'.log| && st.log <= st'.log
    ensures var last := st'.log[|st'.log| - 1];
            && last.Moved? && last.sweep == st.sweep && last.at == st.now && last.mtime == st.slot.live.value.mtime
            && last.seen == st.pc.seen
    ensures forall e :: |st.log| <= e < |st'.log| ==> !st'.log[e].Observed?
  {
    more', st' := more, st;
    if st.pc.AskObject? {
      more', st' := ExtendMore(cfg, clock, events, more', st', Ask(Reclaimable));
      assert st' == st.(pc := ToSize(st.pc.seen, st.pc.judged, |st.log|), log := st.log + [Asked(st.sweep, false, Reclaimable)]);
    }
    more', st' := FinishRename(cfg, clock, events, more', st');
  }

  /** A cycle that is done with the root does nothing more to it. */
  predicate Done(st: State, sweep: nat) {
    st.sweep > sweep || (st.sweep == sweep && (st.pc.Idle? || st.pc.ToStamp?))
  }

  lemma DoneStep(cfg: Config, st: State, ev: Event, from: nat, sweep: nat)
    requires Step(cfg, st, ev).Some? && from <= |st.log| && !MovedIn(st.log, from, sweep) && Done(st, sweep)
    ensures var st' := Step(cfg, st, ev).value;
            Done(st', sweep) && |st.log| <= |st'.log| && !MovedIn(st'.log, from, sweep)
  {
    var st' := Step(cfg, st, ev).value;
    StepAppends(cfg, st, ev);
    forall i | |st.log| <= i < |st'.log| && st'.log[i].Moved?
      ensures st'.log[i].sweep == st.sweep > sweep
    {
    }
  }

  lemma {:induction false} DoneIsDone(cfg: Config, clock: Time, events: seq<Event>, more: seq<Event>, from: nat, sweep: nat)
    requires Run(cfg, clock, events).Some? && Run(cfg, clock, events + more).Some?
    requires Done(Run(cfg, clock, events).value, sweep)
    requires from <= |Run(cfg, clock, events).value.log| && !MovedIn(Run(cfg, clock, events).value.log, from, sweep)
    ensures var st' := Run(cfg, clock, events + more).value;
            Done(st', sweep) && from <= |st'.log| && !MovedIn(st'.log, from, sweep)
    decreases |more|
  {
    if more == [] {
      assert events + more == events;
    } else {
      var before, ev := more[..|more| - 1], more[|more| - 1];
      assert (events + more)[..|events + more| - 1] == events + before;
      DoneIsDone(cfg, clock, events, before, from, sweep);
      DoneStep(cfg, Run(cfg, clock, events + before).value, ev, from, sweep);
    }
  }

  lemma DoneCannotMove(cfg: Config, clock: Time, events: seq<Event>, from: nat, sweep: nat)
    requires Run(cfg, clock, events).Some? && Done(Run(cfg, clock, events).value, sweep)
    requires from <= |Run(cfg, clock, events).value.log| && !MovedIn(Run(cfg, clock, events).value.log, from, sweep)
    ensures !CanMove(cfg, clock, events, from, sweep)
  {
    forall more | Run(cfg, clock, events + more).Some?
      ensures !MovedIn(Run(cfg, clock, events + more).value.log, from, sweep)
    {
      DoneIsDone(cfg, clock, events, more, from, sweep);
    }
  }

  lemma CanFinishMove(cfg: Config, clock: Time, events: seq<Event>, st: State, from: nat)
    requires Run(cfg, clock, events) == Some(st) && AboutToMove(st.pc) && st.slot.live.Some? && from <= |st.log|
    ensures CanMove(cfg, clock, events, from, st.sweep)
  {
    assert events + [] == events;
    var more, st' := FinishMove(cfg, clock, events, [], st);
    assert MovedIn(st'.log, from, st.sweep);
  }

  /** The mtime that phase 2 gets to see. */
  function Read(st: State, ok: bool): Option<Time> {
    if ok && st.slot.live.Some? then Some(st.slot.live.value.mtime) else None
  }

  /** From the mtime check on, the timer decides: the move can follow exactly when it has run out. */
  lemma CanMoveIffEligible(cfg: Config, clock: Time, events: seq<Event>, st: State, ok: bool, from: nat)
    requires Run(cfg, clock, events) == Some(st) && st.pc.ToReadMtime?
    requires from <= |st.log| && !MovedIn(st.log, from, st.sweep)
    ensures CanMove(cfg, clock, events + [Act(ok)], from, st.sweep)
            <==> Eligible(cfg, st.now, FirstSeen(st.pc.cov, Read(st, ok), st.now))
  {
    var events', st' := Extend(cfg, clock, events, st, Act(ok));
    if !Eligible(cfg, st.now, FirstSeen(st.pc.cov, Read(st, ok), st.now)) {
      DoneCannotMove(cfg, clock, events', from, st.sweep);
    } else if st.slot.live.Some? {
      CanFinishMove(cfg, clock, events', st', from);
    } else {
      assert events' + [] == events';
      var more, st1 := ExtendMore(cfg, clock, events', [], st', PutLive([0], 0));
      var more', st2 := FinishMove(cfg, clock, events', more, st1);
      assert MovedIn(st2.log, from, st.sweep);
    }
  }

  // ----- new uploads -----

  /**
   * Whether a cycle under way can still take an upload away: always once it has checked the mtime of the
   * file before it, and never once it is done with the root.
   */
  lemma UploadUnprotectedAfterCheck(cfg: Config, clock: Time, events: seq<Event>, st: State, bytes: seq<byte>, age: nat)
    requires Run(cfg, clock, events) == Some(st)
    ensures AboutToMove(st.pc) ==> CanMove(cfg, clock, events + [PutLive(bytes, age)], |st.log|, st.sweep)
    ensures st.pc.Idle? || st.pc.ToStamp? ==> !CanMove(cfg, clock, events + [PutLive(bytes, age)], |st.log|, st.sweep)
  {
    var events', st' := Extend(cfg, clock, events, st, PutLive(bytes, age));
    if AboutToMove(st.pc) {
      CanFinishMove(cfg, clock, events', st', |st.log|);
    } else if st.pc.Idle? || st.pc.ToStamp? {
      DoneCannotMove(cfg, clock, events', |st.log|, st.sweep);
    }
  }

  /**
   * Before the check, reading the mtime protects it, if its last write is recent: the cycle can take it
   * away if and only if the cached marker alone is old enough and the mtime is not read or as old.
   */
  lemma UploadProtectedIffMtimeRead(cfg: Config, clock: Time, events: seq<Event>, st: State, bytes: seq<byte>, age: nat,
                                    ok: bool)
    requires Run(cfg, clock, events) == Some(st) && st.pc.ToReadMtime?
    ensures CanMove(cfg, clock, events + [PutLive(bytes, age)] + [Act(ok)], |st.log|, st.sweep)
            <==> Eligible(cfg, st.now, FirstSeen(st.pc.cov, None, st.now))
                 && (!ok || st.now - (st.clock - age) >= cfg.retention)
  {
    var events', st' := Extend(cfg, clock, events, st, PutLive(bytes, age));
    CanMoveIffEligible(cfg, clock, events', st', ok, |st.log|);
  }

  /** Such a run exists for every configuration: an upload is quarantined the moment it is stored. */
  lemma UploadRacesTheRename(cfg: Config, bytes: seq<byte>, bytes': seq<byte>) returns (events: seq<Event>)
    requires cfg.Valid()
    ensures Run(cfg, 0, events).Some?
    ensures var st := Run(cfg, 0, events).value;
            st.log != [] && st.log[|st.log| - 1].Moved? && st.log[|st.log| - 1].mtime == st.log[|st.log| - 1].at
            && st.slot.quar == Some(File(bytes', st.clock))
  {
    var st;
    events, st := RunToRename(cfg, bytes);
    events, st := Extend(cfg, 0, events, st, PutLive(bytes', 0));
    events, st := Extend(cfg, 0, events, st, Act(true));
  }

  // ----- files that come back from quarantine -----

  /** Between places m and k an upload whose last write was at time t was committed. */
  ghost predicate UploadedSince(log: seq<Entry>, m: nat, k: nat, t: Time)
    requires k <= |log|
  {
    exists u :: m < u < k && log[u] == Uploaded(t)
  }

  /** The file is no older than t, or it was uploaded after place m. */
  ghost predicate FileSince(log: seq<Entry>, m: nat, file: Option<File>, t: Time) {
    file.Some? ==> file.value.mtime >= t || UploadedSince(log, m, |log|, file.value.mtime)
  }

  ghost predicate SlotSince(st: State, m: nat, t: Time) {
    FileSince(st.log, m, st.slot.live, t) && FileSince(st.log, m, st.slot.quar, t)
  }

  /** No file of this root is older than a quarantine clock, but for what was uploaded after that clock's move. */
  ghost predicate ClockInv(st: State) {
    && (forall a :: 0 <= a < |st.log| && st.log[a].ClockStarted? ==>
          st.log[a].move < a && st.log[a].at <= st.now && SlotSince(st, st.log[a].move, st.log[a].at))
    && (st.pc.ToStamp? && st.origin == BySweeper(st.pc.move, false) ==>
          st.pc.move < |st.log| && FileSince(st.log, st.pc.move, st.slot.live, st.now))
  }

  /** What a step does to the clock entries and the files. */
  ghost predicate ClockStep(st: State, st': State) {
    && st.log <= st'.log && st.now <= st'.now <= st'.clock
    && (forall m: nat, t :: m < |st.log| && t <= st.now && SlotSince(st, m, t) ==> SlotSince(st', m, t))
    && (forall k :: |st.log| <= k < |st'.log| && st'.log[k].ClockStarted? ==>
          st'.log[k].move < |st.log| && st'.log[k].at == st'.now && SlotSince(st', st'.log[k].move, st'.now))
    && (st'.pc.ToStamp? && st'.origin == BySweeper(st'.pc.move, false) ==>
          st'.pc.move < |st'.log| && FileSince(st'.log, st'.pc.move, st'.slot.live, st'.now))
  }

  lemma UploadedGrows(log: seq<Entry>, log': seq<Entry>, m: nat, k: nat, k': nat, t: Time)
    requires log <= log' && k <= |log| && k <= k' <= |log'| && UploadedSince(log, m, k, t)
    ensures UploadedSince(log', m, k', t)
  {
  }

  lemma FileSinceGrows(log: seq<Entry>, log': seq<Entry>, m: nat, file: Option<File>, t: Time)
    requires log <= log' && FileSince(log, m, file, t)
    ensures FileSince(log', m, file, t)
  {
    if file.Some? && file.value.mtime < t {
      UploadedGrows(log, log', m, |log|, |log'|, file.value.mtime);
    }
  }

  /** Files only move between the two places, or get an mtime of the cycle's start or later, or are uploaded. */
  ghost predicate FilesStep(st: State, st': State) {
    && st.log <= st'.log && st.now <= st'.now <= st'.clock
    && (forall f :: st'.slot.live == Some(f) ==> FileFrom(st, st', f))
    && (forall f :: st'.slot.quar == Some(f) ==> FileFrom(st, st', f))
  }

  ghost predicate FileFrom(st: State, st': State, f: File) {
    || st.slot.live == Some(f) || st.slot.quar == Some(f) || f.mtime >= st.now
    || (|st'.log| > |st.log| && st'.log[|st.log|] == Uploaded(f.mtime))
  }

  lemma FilesStepKeeps(st: State, st': State, m: nat, t: Time)
    requires FilesStep(st, st') && m < |st.log| && t <= st.now && SlotSince(st, m, t)
    ensures SlotSince(st', m, t)
  {
    FileSinceGrows(st.log, st'.log, m, st.slot.live, t);
    FileSinceGrows(st.log, st'.log, m, st.slot.quar, t);
    forall f | FileFrom(st, st', f)
      ensures FileSince(st'.log, m, Some(f), t)
    {
    }
  }

  lemma ActFilesStep(cfg: Config, st: State, ok: bool)
    requires st.now <= st.clock && ActStep(cfg, st, ok).Some?
    ensures FilesStep(st, ActStep(cfg, st, ok).value)
  {
  }

  lemma StepFilesStep(cfg: Config, st: State, ev: Event)
    requires st.now <= st.clock && Step(cfg, st, ev).Some?
    ensures FilesStep(st, Step(cfg, st, ev).value)
  {
    if ev.Act? {
      ActFilesStep(cfg, st, ev.ok);
    }
  }

  lemma StampClockStep(cfg: Config, st: State, ev: Event)
    requires ClockInv(st) && Inv(cfg, st) && Step(cfg, st, ev).Some?
    ensures var st' := Step(cfg, st, ev).value;
            && (forall k :: |st.log| <= k < |st'.log| && st'.log[k].ClockStarted? ==>
                  st'.log[k].move < |st.log| && st'.log[k].at == st'.now && SlotSince(st', st'.log[k].move, st'.now))
  {
    var st' := Step(cfg, st, ev).value;
    if st.pc.ToStamp? && ev == Act(true) && st.origin == BySweeper(st.pc.move, false) {
      FileSinceGrows(st.log, st'.log, st.pc.move, st.slot.live, st.now);
    }
  }

  lemma StampPending(cfg: Config, st: State, ev: Event)
    requires ClockInv(st) && Inv(cfg, st) && Step(cfg, st, ev).Some?
    ensures var st' := Step(cfg, st, ev).value;
            st'.pc.ToStamp? && st'.origin == BySweeper(st'.pc.move, false) ==>
              st'.pc.move < |st'.log| && FileSince(st'.log, st'.pc.move, st'.slot.live, st'.now)
  {
    if ev.Act? {
      ActStampPending(cfg, st, ev.ok);
    } else if st.pc.ToStamp? && st.origin == BySweeper(st.pc.move, false) {
      FileSinceGrows(st.log, Step(cfg, st, ev).value.log, st.pc.move, st.slot.live, st.now);
      if ev.PutLive? {
        assert Step(cfg, st, ev).value.log[|st.log|] == Uploaded(st.clock - ev.age);
      }
    }
  }

  lemma ActStampPending(cfg: Config, st: State, ok: bool)
    requires ActStep(cfg, st, ok).Some?
    ensures var st' := ActStep(cfg, st, ok).value;
            st'.pc.ToStamp? ==> st'.slot.live.None? && st'.pc.move < |st'.log|
  {
  }

  lemma ClockInvStep(cfg: Config, st: State, ev: Event)
    requires ClockInv(st) && Inv(cfg, st) && Step(cfg, st, ev).Some?
    ensures ClockInv(Step(cfg, st, ev).value)
  {
    var st' := Step(cfg, st, ev).value;
    StepFilesStep(cfg, st, ev);
    StampClockStep(cfg, st, ev);
    StampPending(cfg, st, ev);
    forall a | 0 <= a < |st'.log| && st'.log[a].ClockStarted?
      ensures st'.log[a].move < a && st'.log[a].at <= st'.now && SlotSince(st', st'.log[a].move, st'.log[a].at)
    {
      if a < |st.log| {
        FilesStepKeeps(st, st', st.log[a].move, st.log[a].at);
      }
    }
  }

  lemma {:induction false} RunClockInv(cfg: Config, clock: Time, events: seq<Event>)
    requires Run(cfg, clock, events).Some?
    ensures ClockInv(Run(cfg, clock, events).value)
  {
    if events != [] {
      var before, ev := events[..|events| - 1], events[|events| - 1];
      RunClockInv(cfg, clock, before);
      RunInv(cfg, clock, before);
      ClockInvStep(cfg, Run(cfg, clock, before).value, ev);
    }
  }

  /** An mtime that was read is no older than any clock started before, or it is that of a later upload. */
  ghost predicate SeenSince(log: seq<Entry>, k: nat, seen: Option<Time>)
    requires k <= |log|
  {
    forall a :: 0 <= a < k && log[a].ClockStarted? && seen.Some? ==>
      seen.value >= log[a].at || UploadedSince(log, log[a].move, k, seen.value)
  }

  ghost predicate SeenInv(st: State) {
    && (forall i :: 0 <= i < |st.log| && st.log[i].Moved? ==> SeenSince(st.log, i, st.log[i].seen))
    && (AboutToMove(st.pc) ==> SeenSince(st.log, |st.log|, st.pc.seen))
  }

  lemma SeenGrows(log: seq<Entry>, log': seq<Entry>, k: nat, k': nat, seen: Option<Time>)
    requires log <= log' && k <= |log| && k <= k' <= |log'| && SeenSince(log, k, seen)
    requires forall a :: k <= a < k' ==> !log'[a].ClockStarted?
    ensures SeenSince(log', k', seen)
  {
    forall a | 0 <= a < k' && log'[a].ClockStarted? && seen.Some?
      ensures seen.value >= log'[a].at || UploadedSince(log', log'[a].move, k', seen.value)
    {
      if seen.value < log[a].at {
        UploadedGrows(log, log', log[a].move, k, k', seen.value);
      }
    }
  }

  /** Where the sweeper gets the mtime from, and that no clock starts while it carries it. */
  lemma SeenComesFrom(cfg: Config, st: State, ev: Event)
    requires Step(cfg, st, ev).Some? && AboutToMove(Step(cfg, st, ev).value.pc)
    ensures var st' := Step(cfg, st, ev).value;
            && (forall k :: |st.log| <= k < |st'.log| ==> !st'.log[k].ClockStarted?)
            && (if st.pc.ToReadMtime? then st'.log == st.log && exists ok :: st'.pc.seen == Read(st, ok)
                else AboutToMove(st.pc) && st'.pc.seen == st.pc.seen)
  {
    if st.pc.ToReadMtime? {
      assert Step(cfg, st, ev).value.pc.seen == Read(st, ev.ok);
    }
  }

  lemma ReadIsSince(st: State, ok: bool)
    requires ClockInv(st)
    ensures SeenSince(st.log, |st.log|, Read(st, ok))
  {
    forall a | 0 <= a < |st.log| && st.log[a].ClockStarted? && Read(st, ok).Some?
      ensures Read(st, ok).value >= st.log[a].at || UploadedSince(st.log, st.log[a].move, |st.log|, Read(st, ok).value)
    {
      assert SlotSince(st, st.log[a].move, st.log[a].at);
    }
  }

  lemma SeenInvStep(cfg: Config, st: State, ev: Event)
    requires ClockInv(st) && SeenInv(st) && Step(cfg, st, ev).Some?
    ensures SeenInv(Step(cfg, st, ev).value)
  {
    var st' := Step(cfg, st, ev).value;
    StepAppends(cfg, st, ev);
    if AboutToMove(st'.pc) {
      SeenComesFrom(cfg, st, ev);
      if st.pc.ToReadMtime? {
        var ok :| st'.pc.seen == Read(st, ok);
        ReadIsSince(st, ok);
      } else {
        SeenGrows(st.log, st'.log, |st.log|, |st'.log|, st.pc.seen);
      }
    }
    forall i | 0 <= i < |st'.log| && st'.log[i].Moved?
      ensures SeenSince(st'.log, i, st'.log[i].seen)
    {
      if i < |st.log| {
        SeenGrows(st.log, st'.log, i, i, st.log[i].seen);
      } else {
        MovedSeen(cfg, st);
        SeenGrows(st.log, st'.log, |st.log|, |st.log|, st.pc.seen);
      }
    }
  }

  lemma MovedSeen(cfg: Config, st: State)
    requires st.pc.ToRename? && st.slot.live.Some?
    ensures var st' := ActStep(cfg, st, true).value;
            |st'.log| == |st.log| + 1 && st'.log[|st.log|].Moved? && st'.log[|st.log|].seen == st.pc.seen
  {
  }

  lemma {:induction false} RunSeenInv(cfg: Config, clock: Time, events: seq<Event>)
    requires Run(cfg, clock, events).Some?
    ensures SeenInv(Run(cfg, clock, events).value)
  {
    if events != [] {
      var before, ev := events[..|events| - 1], events[|events| - 1];
      RunSeenInv(cfg, clock, before);
      RunClockInv(cfg, clock, before);
      SeenInvStep(cfg, Run(cfg, clock, before).value, ev);
    }
  }

  /** No upload committed between places m and k had its last write before t. */
  ghost predicate NoSlowUpload(log: seq<Entry>, m: nat, k: nat, t: Time)
    requires k <= |log|
  {
    forall u :: m < u < k && log[u].Uploaded? ==> log[u].mtime >= t
  }

  /**
   * A fresh window after every rescue: once a root's quarantine clock was started at s, no cycle that
   * read the file's mtime moves it to quarantine again before s + retention, however it came back to
   * objects/ and whatever has replaced it since, unless an upload whose last write lies before s was
   * committed after the first move.
   */
  lemma RescueGetsFreshWindow(cfg: Config, clock: Time, events: seq<Event>, a: nat, i: nat)
    requires Run(cfg, clock, events).Some?
    requires var log := Run(cfg, clock, events).value.log;
             && a < i < |log| && log[a].ClockStarted? && log[i].Moved? && log[i].seen.Some?
             && NoSlowUpload(log, log[a].move, i, log[a].at)
    ensures var log := Run(cfg, clock, events).value.log;
            log[i].at - log[a].at >= cfg.retention
  {
    RunInv(cfg, clock, events);
    RunSeenInv(cfg, clock, events);
    assert SeenSince(Run(cfg, clock, events).value.log, i, Run(cfg, clock, events).value.log[i].seen);
  }

  /** The live file is an upload committed after the move whose clock started at a, last written a retention ago. */
  ghost predicate SlowUpload(cfg: Config, st: State, a: nat)
    requires a < |st.log| && st.log[a].ClockStarted?
  {
    && st.slot.live.Some? && st.now - st.slot.live.value.mtime >= cfg.retention
    && UploadedSince(st.log, st.log[a].move, |st.log|, st.slot.live.value.mtime)
  }

  /**
   * What protects a rescued root, exactly. After any run in which a quarantine clock was started less
   * than `retention` before this cycle: the cycle can go on to move the root if and only if the cached
   * marker alone is old enough, and the file's mtime is not read, or the file is an upload that was
   * committed after the quarantining but last written a whole retention ago.
   */
  lemma RescueProtectedIff(cfg: Config, clock: Time, events: seq<Event>, st: State, a: nat, ok: bool)
    requires Run(cfg, clock, events) == Some(st) && st.pc.ToReadMtime?
    requires a < |st.log| && st.log[a].ClockStarted? && st.now - st.log[a].at < cfg.retention
    ensures CanMove(cfg, clock, events + [Act(ok)], |st.log|, st.sweep)
            <==> Eligible(cfg, st.now, FirstSeen(st.pc.cov, None, st.now))
                 && (Read(st, ok).None? || SlowUpload(cfg, st, a))
  {
    RunClockInv(cfg, clock, events);
    assert SlotSince(st, st.log[a].move, st.log[a].at);
    CanMoveIffEligible(cfg, clock, events, st, ok, |st.log|);
  }

  // Runs, for every configuration, in which a rescued root is moved again at the time its clock started.

  /** A whole quarantining, stamp included. */
  lemma RunToStamped(cfg: Config, bytes: seq<byte>) returns (events: seq<Event>, st: State)
    requires cfg.Valid()
    ensures Run(cfg, 0, events) == Some(st) && st.clock == st.now == cfg.retention && st.pc.Idle?
    ensures st.log != [] && st.log[|st.log| - 1].ClockStarted? && st.log[|st.log| - 1].at == st.now
    ensures st.slot.quar.Some? && st.slot.live.None?
    ensures st.slot.cov.Some? && st.slot.cov.value.answer.reclaimable && st.slot.cov.value.firstSeenReclaimable == Some(0)
  {
    events, st := RunToRename(cfg, bytes);
    events, st := Extend(cfg, 0, events, st, Act(true));
    events, st := Extend(cfg, 0, events, st, Act(true));
  }

  /** The next cycle, up to the mtime check; nothing is in quarantine any more. */
  lemma CycleToMtime(cfg: Config, events: seq<Event>, st: State) returns (events': seq<Event>, st': State)
    requires Run(cfg, 0, events) == Some(st) && st.pc.Idle? && st.slot.live.Some? && st.slot.quar.None?
    requires st.slot.cov.Some? && st.slot.cov.value.answer.reclaimable
    ensures Run(cfg, 0, events') == Some(st') && st'.pc.ToReadMtime? && st'.pc.cov == st.slot.cov.value
    ensures st'.slot == st.slot && st'.now == st.clock && st.log <= st'.log
  {
    events', st' := Extend(cfg, 0, events, st, Begin);
    events', st' := Extend(cfg, 0, events', st', Act(true));
    events', st' := Extend(cfg, 0, events', st', Act(true));
    assert st'.pc == ToReadCov && st'.slot == st.slot;
    events', st' := Extend(cfg, 0, events', st', Act(true));
  }

  lemma MtimeToMove(cfg: Config, events: seq<Event>, st: State, ok: bool) returns (events': seq<Event>, st': State)
    requires Run(cfg, 0, events) == Some(st) && st.pc.ToReadMtime? && st.slot.live.Some?
    requires Eligible(cfg, st.now, FirstSeen(st.pc.cov, Read(st, ok), st.now))
    ensures Run(cfg, 0, events') == Some(st') && st.log <= st'.log && |st.log| < |st'.log|
    ensures var last := st'.log[|st'.log| - 1];
            last.Moved? && last.sweep == st.sweep && last.at == st.now && last.seen == Read(st, ok)
  {
    events', st' := Extend(cfg, 0, events, st, Act(ok));
    assert events' + [] == events';
    var more;
    more, st' := FinishMove(cfg, 0, events', [], st');
    events' := events' + more;
  }

  /** Put back by hand, and the next cycle cannot read the mtime. */
  lemma UnreadMtimeUndoesTheRescue(cfg: Config, bytes: seq<byte>) returns (events: seq<Event>, a: nat, i: nat)
    requires cfg.Valid()
    ensures Run(cfg, 0, events).Some?
    ensures var log := Run(cfg, 0, events).value.log;
            a < i < |log| && log[a].ClockStarted? && log[i].Moved? && log[i].at == log[a].at
  {
    var st;
    events, st := RunToStamped(cfg, bytes);
    a := |st.log| - 1;
    events, st := Extend(cfg, 0, events, st, MvBack);
    events, st := CycleToMtime(cfg, events, st);
    events, st := MtimeToMove(cfg, events, st, false);
    i := |st.log| - 1;
  }

  /** Put back by hand and uploaded again, by an upload that was last written before the clock started: its mtime is read. */
  lemma SlowUploadUndoesTheRescue(cfg: Config, bytes: seq<byte>, bytes': seq<byte>)
      returns (events: seq<Event>, a: nat, i: nat)
    requires cfg.Valid()
    ensures Run(cfg, 0, events).Some?
    ensures var log := Run(cfg, 0, events).value.log;
            && a < i < |log| && log[a].ClockStarted? && log[i].Moved? && log[i].seen.Some? && log[i].at == log[a].at
  {
    var st;
    events, st := RunToStamped(cfg, bytes);
    a := |st.log| - 1;
    events, st := Extend(cfg, 0, events, st, MvBack);
    events, st := Extend(cfg, 0, events, st, PutLive(bytes', cfg.retention as nat));
    events, st := CycleToMtime(cfg, events, st);
    events, st := MtimeToMove(cfg, events, st, true);
    i := |st.log| - 1;
  }

  // ----- a restored file stays for the rest of the cycle -----

  /** The record's marker, if it has one, is less than the retention old. */
  predicate Young(cfg: Config, now: Time, cov: Option<Record>) {
    HasMarker(cov) ==> cov.value.firstSeenReclaimable.value > now - cfg.retention
  }

  /** Since place `from` every reclaimable record was written within the retention of its answer's time. */
  ghost predicate BatchesFresh(cfg: Config, log: seq<Entry>, from: nat) {
    forall e :: from <= e < |log| && log[e].Observed? && log[e].reclaimable ==> log[e].written - log[e].at < cfg.retention
  }

  /** A refresh has read a record with an old marker and is about to write it over what is there, in good time. */
  predicate RefreshInFlight(cfg: Config, st: State) {
    && st.held.Some? && st.held.value.answer.reclaimable && !Young(cfg, st.now, st.held.value.prior)
    && st.clock - st.held.value.at < cfg.retention
  }

  /** The cycle cannot find the root due any more. */
  predicate Settled(cfg: Config, st: State) {
    && (st.pc.ToListObjects? || st.pc.ToReadCov? || st.pc.ToReadMtime? || st.pc.Idle?)
    && Young(cfg, st.now, st.slot.cov) && !RefreshInFlight(cfg, st)
    && (st.pc.ToReadMtime? ==> Young(cfg, st.now, Some(st.pc.cov)))
  }

  lemma SettledAct(cfg: Config, st: State, ok: bool)
    requires cfg.Valid() && Settled(cfg, st) && ActStep(cfg, st, ok).Some?
    ensures Settled(cfg, ActStep(cfg, st, ok).value)
  {
  }

  lemma SettledStep(cfg: Config, st: State, ev: Event)
    requires cfg.Valid() && st.now <= st.clock && Settled(cfg, st) && Step(cfg, st, ev).Some? && ev != Begin
    requires BatchesFresh(cfg, Step(cfg, st, ev).value.log, |st.log|)
    ensures Settled(cfg, Step(cfg, st, ev).value)
  {
    var st' := Step(cfg, st, ev).value;
    if ev.Act? {
      SettledAct(cfg, st, ev.ok);
    } else if ev.WriteRecord? {
      assert st'.log[|st.log|] == Observed(st.held.value.answer.reclaimable, st.held.value.at, st.clock, st.held.value.read);
    }
  }

  /** The cycle is over, or it has settled. */
  ghost predicate Past(cfg: Config, st: State, from: nat, sweep: nat) {
    && from <= |st.log| && !MovedIn(st.log, from, sweep)
    && (st.sweep > sweep || (st.sweep == sweep && Settled(cfg, st)))
  }

  lemma PastStep(cfg: Config, st: State, ev: Event, from: nat, sweep: nat)
    requires cfg.Valid() && st.now <= st.clock && Past(cfg, st, from, sweep) && Step(cfg, st, ev).Some?
    requires BatchesFresh(cfg, Step(cfg, st, ev).value.log, |st.log|)
    ensures Past(cfg, Step(cfg, st, ev).value, from, sweep)
  {
    var st' := Step(cfg, st, ev).value;
    StepAppends(cfg, st, ev);
    if st.sweep == sweep && ev != Begin {
      SettledStep(cfg, st, ev);
    }
    forall i | |st.log| <= i < |st'.log| && st'.log[i].Moved?
      ensures st'.log[i].sweep == st.sweep > sweep
    {
    }
  }

  lemma {:induction false} PastRun(cfg: Config, clock: Time, events: seq<Event>, more: seq<Event>, from: nat, sweep: nat)
    requires cfg.Valid() && Run(cfg, clock, events).Some? && Past(cfg, Run(cfg, clock, events).value, from, sweep)
    requires Run(cfg, clock, events + more).Some?
    requires BatchesFresh(cfg, Run(cfg, clock, events + more).value.log, |Run(cfg, clock, events).value.log|)
    ensures Past(cfg, Run(cfg, clock, events + more).value, from, sweep)
    decreases |more|
  {
    if more == [] {
      assert events + more == events;
    } else {
      var before, ev := more[..|more| - 1], more[|more| - 1];
      assert (events + more)[..|events + more| - 1] == events + before;
      var st := Run(cfg, clock, events + before).value;
      StepAppends(cfg, st, ev);
      RunGrows(cfg, clock, events, before);
      PastRun(cfg, clock, events, before, from, sweep);
      RunInv(cfg, clock, events + before);
      PastStep(cfg, st, ev, from, sweep);
    }
  }

  /** The write-back settles the cycle, if no refresh is in flight. */
  lemma WriteBackSettles(cfg: Config, st: State)
    requires cfg.Valid() && Inv(cfg, st) && st.pc.ToWriteBack? && !RefreshInFlight(cfg, st)
    ensures var st' := ActStep(cfg, st, true).value;
            && st'.log == st.log + [Observed(false, st.now, st.clock, |st.log|), WroteBack(st.sweep)]
            && Past(cfg, st', 0, st.sweep)
  {
    var st' := ActStep(cfg, st, true).value;
    assert st'.slot.cov.value.firstSeenReclaimable.None?;
    assert !MovedIn(st.log, 0, st.sweep);
  }

  /**
   * A cycle that restores a root and writes the cache does not move it, whatever happens afterwards, as
   * long as no refresh is in flight at the write-back with an old marker, and no refresh writes a batch
   * that is as old as the retention.
   */
  lemma RestoredStaysForTheCycle(cfg: Config, clock: Time, events: seq<Event>, st: State, more: seq<Event>)
    requires cfg.Valid() && Run(cfg, clock, events) == Some(st) && st.pc.ToWriteBack? && !RefreshInFlight(cfg, st)
    requires Run(cfg, clock, events + [Act(true)] + more).Some?
    requires BatchesFresh(cfg, Run(cfg, clock, events + [Act(true)] + more).value.log, |st.log|)
    ensures !MovedIn(Run(cfg, clock, events + [Act(true)] + more).value.log, 0, st.sweep)
  {
    RunInv(cfg, clock, events);
    WriteBackSettles(cfg, st);
    var events', st' := Extend(cfg, clock, events, st, Act(true));
    PastRun(cfg, clock, events', more, 0, st.sweep);
  }

  /** Some continuation, with no batch as old as the retention, moves the root in that cycle. */
  ghost predicate CanMoveFresh(cfg: Config, clock: Time, events: seq<Event>, from: nat, sweep: nat) {
    exists more ::
      && Run(cfg, clock, events + more).Some? && BatchesFresh(cfg, Run(cfg, clock, events + more).value.log, from)
      && MovedIn(Run(cfg, clock, events + more).value.log, from, sweep)
  }

  /** Phase 2 up to the mtime check, on a live root that the cache calls reclaimable. */
  lemma ReadRun(cfg: Config, clock: Time, events: seq<Event>, more: seq<Event>, st: State)
      returns (more': seq<Event>, st': State)
    requires Run(cfg, clock, events + more) == Some(st) && st.pc.ToListObjects? && st.slot.live.Some?
    requires st.slot.cov.Some? && st.slot.cov.value.answer.reclaimable
    ensures Run(cfg, clock, events + more') == Some(st')
    ensures st' == st.(pc := ToReadMtime(st.slot.cov.value, |st.log|), log := st.log + [Judged(st.sweep, st.anchor)])
  {
    more', st' := ExtendMore(cfg, clock, events, more, st, Act(true));
    assert st' == st.(pc := ToReadCov);
    more', st' := ExtendMore(cfg, clock, events, more', st', Act(true));
  }

  /** The refresh in flight writes its record over the restored one. */
  lemma OverwriteRun(cfg: Config, clock: Time, events: seq<Event>, st: State)
      returns (more: seq<Event>, st': State)
    requires Run(cfg, clock, events) == Some(st) && st.pc.ToListObjects? && RefreshInFlight(cfg, st)
    ensures Run(cfg, clock, events + more) == Some(st') && st'.pc.ToListObjects? && st'.slot.live.Some?
    ensures st'.now == st.now && st'.sweep == st.sweep && st.log <= st'.log && BatchesFresh(cfg, st'.log, |st.log|)
    ensures HasMarker(st'.slot.cov) && st'.slot.cov.value.answer.reclaimable && !Young(cfg, st.now, st'.slot.cov)
  {
    var h := st.held.value;
    assert events + [] == events;
    more, st' := ExtendMore(cfg, clock, events, [], st, WriteRecord);
    assert st'.log == st.log + [Observed(true, h.at, st.clock, h.read)];
    assert st'.slot.cov.value.firstSeenReclaimable == h.prior.value.firstSeenReclaimable;
    if st'.slot.live.None? {
      more, st' := ExtendMore(cfg, clock, events, more, st', PutLive([0], 0));
    }
  }

  lemma InFlightMoves(cfg: Config, clock: Time, events: seq<Event>, st: State, from: nat)
    requires Run(cfg, clock, events) == Some(st) && st.pc.ToListObjects? && RefreshInFlight(cfg, st)
    requires from <= |st.log| && BatchesFresh(cfg, st.log, from)
    ensures CanMoveFresh(cfg, clock, events, from, st.sweep)
  {
    var more, st1 := OverwriteRun(cfg, clock, events, st);
    var st2, st3, st4;
    more, st2 := ReadRun(cfg, clock, events, more, st1);
    more, st3 := ExtendMore(cfg, clock, events, more, st2, Act(false));
    assert st3 == st2.(pc := AskObject(None, |st1.log|));
    more, st4 := FinishMove(cfg, clock, events, more, st3);
    assert MovedIn(st4.log, from, st.sweep);
    FreshOnward(cfg, st.log, st1.log, st4.log, from);
  }

  lemma FreshOnward(cfg: Config, log: seq<Entry>, log1: seq<Entry>, log2: seq<Entry>, from: nat)
    requires log <= log1 <= log2 && BatchesFresh(cfg, log, from) && BatchesFresh(cfg, log1, |log|)
    requires forall e :: |log1| <= e < |log2| ==> !log2[e].Observed?
    ensures BatchesFresh(cfg, log2, from)
  {
  }

  /**
   * The condition is exact. After any run that has restored a root and is to write the cache: once it is
   * written, some continuation without a batch as old as the retention moves the root in the same cycle
   * if and only if a refresh is in flight that has read a marker at least the retention old.
   */
  lemma RestoredStaysIff(cfg: Config, clock: Time, events: seq<Event>, st: State)
    requires cfg.Valid() && Run(cfg, clock, events) == Some(st) && st.pc.ToWriteBack?
    ensures CanMoveFresh(cfg, clock, events + [Act(true)], |st.log|, st.sweep) <==> RefreshInFlight(cfg, st)
  {
    if RefreshInFlight(cfg, st) {
      InFlightAfterWriteBack(cfg, clock, events, st);
    } else {
      NothingInFlight(cfg, clock, events, st);
    }
  }

  lemma InFlightAfterWriteBack(cfg: Config, clock: Time, events: seq<Event>, st: State)
    requires Run(cfg, clock, events) == Some(st) && st.pc.ToWriteBack? && RefreshInFlight(cfg, st)
    ensures CanMoveFresh(cfg, clock, events + [Act(true)], |st.log|, st.sweep)
  {
    var events', st' := Extend(cfg, clock, events, st, Act(true));
    assert st'.log == st.log + [Observed(false, st.now, st.clock, |st.log|), WroteBack(st.sweep)];
    InFlightMoves(cfg, clock, events', st', |st.log|);
  }

  lemma NothingInFlight(cfg: Config, clock: Time, events: seq<Event>, st: State)
    requires cfg.Valid() && Run(cfg, clock, events) == Some(st) && st.pc.ToWriteBack? && !RefreshInFlight(cfg, st)
    ensures !CanMoveFresh(cfg, clock, events + [Act(true)], |st.log|, st.sweep)
  {
    forall more | Run(cfg, clock, events + [Act(true)] + more).Some?
                  && BatchesFresh(cfg, Run(cfg, clock, events + [Act(true)] + more).value.log, |st.log|)
      ensures !MovedIn(Run(cfg, clock, events + [Act(true)] + more).value.log, |st.log|, st.sweep)
    {
      RestoredStaysForTheCycle(cfg, clock, events, st, more);
    }
  }

  // Runs, for every configuration, that move a restored root in the cycle that restored it.

  /** A root with an old marker is quarantined by hand; a refresh reads the record, and a cycle restores the file. */
  lemma RunToWriteBack(cfg: Config, bytes: seq<byte>) returns (events: seq<Event>, st: State)
    requires cfg.Valid()
    ensures Run(cfg, 0, events) == Some(st) && st.clock == st.now == cfg.retention && st.pc.ToWriteBack?
    ensures st.slot.live == Some(File(bytes, 0)) && st.held.Some?
    ensures st.held.value.prior == st.slot.cov && st.held.value.answer == ORPHANED_ANSWER && st.held.value.at == st.now
    ensures HasMarker(st.slot.cov) && st.slot.cov.value.firstSeenReclaimable.value == 0
    ensures forall e :: 0 <= e < |st.log| && st.log[e].Observed? ==> st.log[e].written == st.log[e].at
  {
    events, st := RunToQuarantined(cfg, bytes);
    events, st := Extend(cfg, 0, events, st, ReadPrior(ORPHANED_ANSWER, 0));
    var before := st;
    events, st := Extend(cfg, 0, events, st, Begin);
    events, st := Extend(cfg, 0, events, st, Act(true));
    assert st == before.(pc := AskQuar(0), sweep := before.sweep + 1, now := before.clock);
    events, st := Extend(cfg, 0, events, st, Ask(Retained));
    events, st := Extend(cfg, 0, events, st, Act(true));
  }

  lemma RunToQuarantined(cfg: Config, bytes: seq<byte>) returns (events: seq<Event>, st: State)
    requires cfg.Valid()
    ensures Run(cfg, 0, events) == Some(st) && st.clock == cfg.retention && st.pc.Idle? && st.slot.quar == Some(File(bytes, 0))
    ensures HasMarker(st.slot.cov) && st.slot.cov.value.firstSeenReclaimable.value == 0
    ensures forall e :: 0 <= e < |st.log| && st.log[e].Observed? ==> st.log[e].written == st.log[e].at
  {
    events, st := [], Initial(0);
    events, st := Extend(cfg, 0, events, st, PutLive(bytes, 0));
    events, st := Extend(cfg, 0, events, st, ReadPrior(ORPHANED_ANSWER, 0));
    events, st := Extend(cfg, 0, events, st, WriteRecord);
    assert st.slot.cov.value.firstSeenReclaimable == Some(0);
    events, st := Extend(cfg, 0, events, st, MvIn);
    events, st := Extend(cfg, 0, events, st, Tick(cfg.retention));
  }

  /** Phase 2 on a restored file whose record has an old marker. */
  lemma MoveRestored(cfg: Config, events: seq<Event>, st: State) returns (events': seq<Event>, st': State)
    requires Run(cfg, 0, events) == Some(st) && st.pc.ToListObjects? && st.slot.live.Some?
    requires st.slot.live.value.mtime == 0 && st.now == cfg.retention
    requires HasMarker(st.slot.cov) && st.slot.cov.value.answer.reclaimable && st.slot.cov.value.firstSeenReclaimable.value <= 0
    ensures Run(cfg, 0, events') == Some(st') && st.log <= st'.log && |st.log| < |st'.log|
    ensures st'.log[|st'.log| - 1].Moved? && st'.log[|st'.log| - 1].sweep == st.sweep && st'.log[|st'.log| - 1].at == st.now
    ensures forall e :: |st.log| <= e < |st'.log| ==> !st'.log[e].Observed?
  {
    assert events + [] == events;
    var more, st1, st2;
    more, st1 := ReadRun(cfg, 0, events, [], st);
    more, st2 := ExtendMore(cfg, 0, events, more, st1, Act(true));
    assert st2 == st1.(pc := AskObject(Some(0), |st.log|));
    more, st' := FinishMove(cfg, 0, events, more, st2);
    events' := events + more;
  }

  /**
   * The refresh writes after the write-back: the root is moved at the very time at which a covered answer
   * was cached for it, so the history behind the move has that break in it. No batch has any lag.
   */
  lemma RacingRefreshUndoesTheRescue(cfg: Config, bytes: seq<byte>) returns (events: seq<Event>, a: nat, i: nat)
    requires cfg.Valid()
    ensures Run(cfg, 0, events).Some?
    ensures var log := Run(cfg, 0, events).value.log;
            && 0 < a < i < |log| && log[a].WroteBack? && log[i].Moved? && log[i].sweep == log[a].sweep
            && Breaks(log[a - 1]) && log[a - 1].Observed? && log[a - 1].written == log[i].at
            && forall e :: 0 <= e < |log| && log[e].Observed? ==> log[e].written == log[e].at
  {
    var st;
    events, st := RunToWriteBack(cfg, bytes);
    var before := st;
    events, st := Extend(cfg, 0, events, st, Act(true));
    a := |st.log| - 1;
    assert st.log == before.log + [Observed(false, st.now, st.now, |before.log|), WroteBack(st.sweep)];
    events, st := Extend(cfg, 0, events, st, WriteRecord);
    events, st := MoveRestored(cfg, events, st);
    i := |st.log| - 1;
  }

  /** The bound on the batches' age is exact as well: any greater one has the same effect, with nothing in flight. */
  lemma StaleBatchUndoesTheRescue(cfg: Config, bytes: seq<byte>, lag: nat) returns (events: seq<Event>, a: nat, i: nat)
    requires cfg.Valid() && lag >= cfg.retention
    ensures Run(cfg, 0, events).Some?
    ensures var log := Run(cfg, 0, events).value.log;
            && 0 < a < i < |log| && log[a].WroteBack? && log[i].Moved? && log[i].sweep == log[a].sweep
            && forall e :: a < e < |log| && log[e].Observed? ==> log[e].read > a && log[e].written - log[e].at == lag
  {
    var st;
    events, st := RunToWriteBack(cfg, bytes);
    events, st := Extend(cfg, 0, events, st, Act(true));
    a := |st.log| - 1;
    events, st := Extend(cfg, 0, events, st, ReadPrior(ORPHANED_ANSWER, lag));
    events, st := Extend(cfg, 0, events, st, WriteRecord);
    assert st.slot.cov.value.firstSeenReclaimable == Some(cfg.retention - lag);
    events, st := MoveRestored(cfg, events, st);
    i := |st.log| - 1;
  }
}
