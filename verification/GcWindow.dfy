/** The quarantine window and the stamp that keeps it. */
module GcWindow {
  import opened Basics
  import opened Coverage
  import opened SweepSpec
  import opened GcRun

  // Stamping the moved file. `from` is where the log ended before the stamp, `limit` the move's time plus the window.

  /** From place `from` on, the file moved at place `move` was destroyed before `limit`. */
  ghost predicate DestroyedEarly(log: seq<Entry>, from: nat, move: nat, limit: Time) {
    exists u :: from <= u < |log| && log[u].Destroyed? && log[u].origin.BySweeper? && log[u].origin.move == move
                && log[u].at < limit
  }

  /** Some continuation of the run destroys the file early. */
  ghost predicate CanDestroyEarly(cfg: Config, clock: Time, events: seq<Event>, from: nat, move: nat, limit: Time) {
    exists more :: Run(cfg, clock, events + more).Some? && DestroyedEarly(Run(cfg, clock, events + more).value.log, from, move, limit)
  }

  /** The moved file can leave no earlier than limit: its mtime is from the move on, or the clock is past the limit. */
  ghost predicate KeptUntil(cfg: Config, st: State, move: nat, limit: Time) {
    && limit <= st.now + cfg.window && st.now <= st.clock
    && (|| (st.clock >= limit && (st.pc.Idle? || st.now >= limit))
        || (st.origin.BySweeper? && st.origin.move == move ==>
              && st.slot.quar.Some? && st.slot.quar.value.mtime >= limit - cfg.window
              && (st.pc.AskQuar? || st.pc.ToUnlink? ==> st.pc.entryAt >= limit - cfg.window)))
  }

  lemma KeptInQuarantinePhase(cfg: Config, st: State, ok: bool, move: nat, limit: Time)
    requires KeptUntil(cfg, st, move, limit) && InQuarantinePhase(st.pc) && ActStep(cfg, st, ok).Some?
    ensures KeptUntil(cfg, ActStep(cfg, st, ok).value, move, limit)
  {
  }

  lemma KeptInObjectsPhase(cfg: Config, st: State, ok: bool, move: nat, limit: Time)
    requires KeptUntil(cfg, st, move, limit) && !InQuarantinePhase(st.pc) && ActStep(cfg, st, ok).Some?
    requires move < |st.log|
    ensures KeptUntil(cfg, ActStep(cfg, st, ok).value, move, limit)
  {
  }

  lemma KeptUntilStep(cfg: Config, st: State, ev: Event, move: nat, limit: Time)
    requires KeptUntil(cfg, st, move, limit) && Step(cfg, st, ev).Some? && move < |st.log|
    ensures KeptUntil(cfg, Step(cfg, st, ev).value, move, limit)
  {
    if ev.Act? && InQuarantinePhase(st.pc) {
      KeptInQuarantinePhase(cfg, st, ev.ok, move, limit);
    } else if ev.Act? {
      KeptInObjectsPhase(cfg, st, ev.ok, move, limit);
    }
  }

  lemma NoneEarly(cfg: Config, st: State, ev: Event, from: nat, move: nat, limit: Time)
    requires Inv(cfg, st) && KeptUntil(cfg, st, move, limit) && Step(cfg, st, ev).Some?
    requires from <= |st.log| && !DestroyedEarly(st.log, from, move, limit)
    ensures from <= |Step(cfg, st, ev).value.log| && !DestroyedEarly(Step(cfg, st, ev).value.log, from, move, limit)
  {
    StepAppends(cfg, st, ev);
  }

  lemma {:induction false} KeptUntilRun(cfg: Config, clock: Time, events: seq<Event>, more: seq<Event>,
                                        from: nat, move: nat, limit: Time)
    requires Run(cfg, clock, events).Some? && KeptUntil(cfg, Run(cfg, clock, events).value, move, limit)
    requires move < from <= |Run(cfg, clock, events).value.log|
    requires !DestroyedEarly(Run(cfg, clock, events).value.log, from, move, limit)
    requires Run(cfg, clock, events + more).Some?
    ensures var st := Run(cfg, clock, events + more).value;
            from <= |st.log| && KeptUntil(cfg, st, move, limit) && !DestroyedEarly(st.log, from, move, limit)
    decreases |more|
  {
    if more == [] {
      assert events + more == events;
    } else {
      var before, ev := more[..|more| - 1], more[|more| - 1];
      assert (events + more)[..|events + more| - 1] == events + before;
      KeptUntilRun(cfg, clock, events, before, from, move, limit);
      RunInv(cfg, clock, events + before);
      KeptUntilStep(cfg, Run(cfg, clock, events + before).value, ev, move, limit);
      NoneEarly(cfg, Run(cfg, clock, events + before).value, ev, from, move, limit);
    }
  }

  /** From an unstamped file on: wait until its old mtime lets the next cycle unlink it. */
  lemma UnstampedRun(cfg: Config, clock: Time, events: seq<Event>, st: State, ev: Event)
      returns (more: seq<Event>, st': State)
    requires Run(cfg, clock, events) == Some(st) && st.pc.ToStamp? && st.origin == BySweeper(st.pc.move, false)
    requires st.slot.quar.Some? && (ev == Act(false) || ev == Crash)
    ensures Run(cfg, clock, events + [ev] + more) == Some(st')
    ensures st.log <= st'.log && |st'.log| == |st.log| + 2
    ensures st'.log[|st.log| + 1].Destroyed? && st'.log[|st.log| + 1].origin == st.origin
    ensures st'.log[|st.log| + 1].at
            == if st.clock >= st.slot.quar.value.mtime + cfg.window then st.clock else st.slot.quar.value.mtime + cfg.window
  {
    var due := st.slot.quar.value.mtime + cfg.window;
    more := [];
    var start;
    start, st' := Extend(cfg, clock, events, st, ev);
    assert start + [] == start;
    more, st' := ExtendMore(cfg, clock, start, more, st', Tick(if st.clock >= due then 0 else due - st.clock));
    more, st' := UnlinkDue(cfg, clock, start, more, st');
  }

  /** A cycle starts and finds the file in quarantine. */
  lemma ListDue(cfg: Config, clock: Time, events: seq<Event>, more: seq<Event>, st: State)
      returns (more': seq<Event>, st': State)
    requires Run(cfg, clock, events + more) == Some(st) && st.pc.Idle? && st.slot.quar.Some?
    ensures Run(cfg, clock, events + more') == Some(st')
    ensures st' == st.(pc := AskQuar(st.slot.quar.value.mtime), sweep := st.sweep + 1, now := st.clock)
  {
    more', st' := ExtendMore(cfg, clock, events, more, st, Begin);
    assert st' == st.(pc := ToListQuar, sweep := st.sweep + 1, now := st.clock);
    more', st' := ExtendMore(cfg, clock, events, more', st', Act(true));
  }

  /** The next cycle unlinks a file whose mtime is a window old. */
  lemma UnlinkDue(cfg: Config, clock: Time, events: seq<Event>, more: seq<Event>, st: State)
      returns (more': seq<Event>, st': State)
    requires Run(cfg, clock, events + more) == Some(st) && st.pc.Idle? && st.slot.quar.Some?
    requires WindowElapsed(cfg, st.clock, st.slot.quar.value.mtime)
    ensures Run(cfg, clock, events + more') == Some(st')
    ensures st'.log == st.log + [Asked(st.sweep + 1, true, Reclaimable),
                                 Destroyed(st.sweep + 1, st.clock, st.slot.quar.value.mtime, |st.log|, st.origin)]
  {
    var entryAt := st.slot.quar.value.mtime;
    more', st' := ListDue(cfg, clock, events, more, st);
    var begun := st';
    more', st' := ExtendMore(cfg, clock, events, more', st', Ask(Reclaimable));
    assert st' == begun.(pc := ToUnlink(entryAt, |st.log|), log := st.log + [Asked(begun.sweep, true, Reclaimable)]);
    more', st' := ExtendMore(cfg, clock, events, more', st', Act(true));
  }

  lemma StampKeeps(cfg: Config, st: State, ev: Event)
    requires Inv(cfg, st) && st.pc.ToStamp? && st.origin == BySweeper(st.pc.move, false) && (ev.Act? || ev.Crash?)
    requires ev == Act(true) || st.slot.quar.value.mtime >= st.now || st.clock >= st.now + cfg.window
    ensures var st' := Step(cfg, st, ev).value;
            && st.pc.move < |st.log| <= |st'.log| && KeptUntil(cfg, st', st.pc.move, st.now + cfg.window)
            && !DestroyedEarly(st'.log, |st.log|, st.pc.move, st.now + cfg.window)
  {
  }

  /**
   * The stamp is what keeps the window, exactly. After any run that has just moved a file, the cycle
   * may stamp it, fail to, or crash. Some continuation destroys the file before the window from its
   * move is over if and only if the stamp does not happen, the file's mtime is older than the move,
   * and the window is not over yet.
   */
  lemma WindowKeptIffStamped(cfg: Config, clock: Time, events: seq<Event>, st: State, ev: Event)
    requires Run(cfg, clock, events) == Some(st) && st.pc.ToStamp? && st.origin == BySweeper(st.pc.move, false)
    requires ev.Act? || ev.Crash?
    ensures st.slot.quar.Some?
    ensures CanDestroyEarly(cfg, clock, events + [ev], |st.log|, st.pc.move, st.now + cfg.window)
            <==> ev != Act(true) && st.slot.quar.value.mtime < st.now && st.clock < st.now + cfg.window
  {
    RunInv(cfg, clock, events);
    var limit := st.now + cfg.window;
    if ev != Act(true) && st.slot.quar.value.mtime < st.now && st.clock < limit {
      var more, st' := UnstampedRun(cfg, clock, events, st, ev);
      assert DestroyedEarly(st'.log, |st.log|, st.pc.move, limit);
    } else {
      var events', st' := Extend(cfg, clock, events, st, ev);
      StampKeeps(cfg, st, ev);
      forall more | Run(cfg, clock, events' + more).Some?
        ensures !DestroyedEarly(Run(cfg, clock, events' + more).value.log, |st.log|, st.pc.move, limit)
      {
        KeptUntilRun(cfg, clock, events', more, |st.log|, st.pc.move, limit);
      }
    }
  }

  /**
   * Such a run exists for every configuration: a crash between the rename and the stamp, and the
   * object is destroyed as soon as its upload is one window old, at the very time of the move if the
   * window is no longer than the retention.
   */
  lemma CrashBeforeStampLosesWindow(cfg: Config, bytes: seq<byte>) returns (events: seq<Event>, u: nat)
    requires cfg.Valid()
    ensures Run(cfg, 0, events).Some?
    ensures var log := Run(cfg, 0, events).value.log;
            && u < |log| && log[u].Destroyed? && log[u].origin.BySweeper? && log[u].origin.move < u
            && log[log[u].origin.move].Moved?
            && log[u].at - log[log[u].origin.move].at == (if cfg.window <= cfg.retention then 0 else cfg.window - cfg.retention)
            && log[u].at - log[log[u].origin.move].at < cfg.window
  {
    var st;
    events, st := RunToRename(cfg, bytes);
    events, st := Extend(cfg, 0, events, st, Act(true));
    var more, st' := UnstampedRun(cfg, 0, events, st, Crash);
    events, u := events + [Crash] + more, |st.log| + 1;
  }
}
