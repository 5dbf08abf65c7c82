/** The circuit breaker's signed pause signals and its two files (pausectl/pausectl.go). */
module Pause {
  import opened Basics
  import opened Coverage

  const SIGNAL_TYPE := "obsideo.pause-signal"
  const SIGNAL_VERSION := 1
  const SIGNAL_SCOPE := "coverage-enforcement"
  const SIGNATURE_SIZE := 64

  datatype Envelope = Envelope(payload: Text, signature: Text)

  /** A parsed payload; None is a timestamp that is not RFC 3339. */
  datatype Signal = Signal(kind: string, version: int, scope: string, issuedAt: Option<Time>, expiresAt: Option<Time>,
                           sequenceNumber: int)

  datatype Stored = Stored(envelope: Envelope, signal: Signal)

  datatype Refusal = NotConfigured | InvalidEnvelope | InvalidSignatureFormat | InvalidSignature | InvalidPayload
                   | WrongType | WrongVersion | WrongScope | Expired | MalformedTimestamp | SequenceNotMonotonic
                   | WriteFailed

  /** Base64url, Ed25519 and JSON, of which nothing more is assumed. */
  datatype Codec = Codec(decode: Text -> Option<seq<byte>>, verify: (Text, Text, seq<byte>) -> bool,
                         parse: Text -> Option<Signal>)

  // ----- verification -----

  /** verifyEnvelope */
  predicate Verifies(c: Codec, key: Text, env: Envelope) {
    match c.decode(env.signature)
    case None => false
    case Some(sig) => |sig| == SIGNATURE_SIZE && c.verify(key, env.payload, sig)
  }

  /** Apply's checks, in their order; lastSeq is the highest sequence number taken so far. */
  function Validate(c: Codec, coldKey: Option<Text>, lastSeq: int, env: Envelope, now: Time): Result<Signal, Refusal> {
    if coldKey.None? then Err(NotConfigured)
    else if env.payload == [] || env.signature == [] then Err(InvalidEnvelope)
    else
      match c.decode(env.signature)
      case None => Err(InvalidSignatureFormat)
      case Some(sig) =>
        if |sig| != SIGNATURE_SIZE then Err(InvalidSignatureFormat)
        else if !c.verify(coldKey.value, env.payload, sig) then Err(InvalidSignature)
        else
          match c.parse(env.payload)
          case None => Err(InvalidPayload)
          case Some(s) =>
            if s.kind != SIGNAL_TYPE then Err(WrongType)
            else if s.version != SIGNAL_VERSION then Err(WrongVersion)
            else if s.scope != SIGNAL_SCOPE then Err(WrongScope)
            else if s.expiresAt.None? then Err(MalformedTimestamp)
            else if s.expiresAt.value <= now then Err(Expired)
            else if s.issuedAt.None? then Err(MalformedTimestamp)
            else if s.sequenceNumber <= lastSeq then Err(SequenceNotMonotonic)
            else Ok(s)
  }

  /** What makes an envelope acceptable, apart from its sequence number. */
  predicate WellSigned(c: Codec, coldKey: Option<Text>, env: Envelope, now: Time) {
    && coldKey.Some? && env.payload != [] && env.signature != [] && Verifies(c, coldKey.value, env)
    && c.parse(env.payload).Some?
    && var s := c.parse(env.payload).value;
    && s.kind == SIGNAL_TYPE && s.version == SIGNAL_VERSION && s.scope == SIGNAL_SCOPE
    && s.expiresAt.Some? && s.expiresAt.value > now && s.issuedAt.Some?
  }

  lemma ValidateAccepts(c: Codec, coldKey: Option<Text>, lastSeq: int, env: Envelope, now: Time)
    ensures Validate(c, coldKey, lastSeq, env, now).Ok? <==>
              WellSigned(c, coldKey, env, now) && c.parse(env.payload).value.sequenceNumber > lastSeq
    ensures Validate(c, coldKey, lastSeq, env, now).Ok? ==>
              Some(Validate(c, coldKey, lastSeq, env, now).value) == c.parse(env.payload)
  {
  }

  /** Every refusal has its own cause. */
  lemma RefusalsHaveCauses(c: Codec, coldKey: Option<Text>, lastSeq: int, env: Envelope, now: Time)
    ensures Validate(c, coldKey, lastSeq, env, now).Err? ==>
              match Validate(c, coldKey, lastSeq, env, now).error
              case NotConfigured => coldKey == None
              case InvalidEnvelope => env.payload == [] || env.signature == []
              case InvalidSignatureFormat => c.decode(env.signature) == None || |c.decode(env.signature).value| != 64
              case InvalidSignature =>
                coldKey.Some? && c.decode(env.signature).Some? && !c.verify(coldKey.value, env.payload, c.decode(env.signature).value)
              case InvalidPayload => c.parse(env.payload) == None
              case WrongType => c.parse(env.payload).Some? && c.parse(env.payload).value.kind != "obsideo.pause-signal"
              case WrongVersion => c.parse(env.payload).Some? && c.parse(env.payload).value.version != 1
              case WrongScope => c.parse(env.payload).Some? && c.parse(env.payload).value.scope != "coverage-enforcement"
              case Expired =>
                && c.parse(env.payload).Some? && c.parse(env.payload).value.expiresAt.Some?
                && c.parse(env.payload).value.expiresAt.value <= now
              case MalformedTimestamp =>
                && c.parse(env.payload).Some?
                && (c.parse(env.payload).value.expiresAt == None || c.parse(env.payload).value.issuedAt == None)
              case SequenceNotMonotonic => c.parse(env.payload).Some? && c.parse(env.payload).value.sequenceNumber <= lastSeq
              case WriteFailed => false
  {
  }

  /** A signal that was accepted pauses the provider from then on, until the time it says and not a moment longer. */
  lemma AcceptedPausesUntilExpiry(c: Codec, coldKey: Option<Text>, lastSeq: int, env: Envelope, now: Time, later: Time)
    requires Validate(c, coldKey, lastSeq, env, now).Ok? && now <= later
    ensures var s := Validate(c, coldKey, lastSeq, env, now).value;
            && PausedBy(Some(Stored(env, s)), now)
            && (PausedBy(Some(Stored(env, s)), later) <==> s.expiresAt.Some? && later < s.expiresAt.value)
  {
  }

  // ----- files and memory -----

  datatype Disk = Disk(current: Option<Stored>, last: Option<int>)

  datatype Memory = Memory(lastSeq: int, active: Option<Stored>)

  /** A missing last_sequence_number counts as zero. */
  function LastOf(d: Disk): int {
    if d.last.Some? then d.last.value else 0
  }

  predicate Trusted(c: Codec, coldKey: Option<Text>, d: Disk) {
    d.current.Some? && coldKey.Some? && Verifies(c, coldKey.value, d.current.value.envelope)
  }

  /** Load leaves an untrusted current.json aside. */
  function LoadedDisk(c: Codec, coldKey: Option<Text>, d: Disk): Disk {
    if Trusted(c, coldKey, d) then d else d.(current := None)
  }

  function LoadedMemory(c: Codec, coldKey: Option<Text>, d: Disk): Memory {
    Memory(LastOf(d), LoadedDisk(c, coldKey, d).current)
  }

  predicate PausedBy(active: Option<Stored>, now: Time) {
    match active
    case None => false
    case Some(stored) =>
      match stored.signal.expiresAt
      case None => true
      case Some(expiresAt) => expiresAt > now
  }

  class State {
    const c: Codec
    const coldKey: Option<Text>
    var disk: Disk
    var lastSeq: int
    var active: Option<Stored>

    function Mem(): Memory
      reads this
    {
      Memory(lastSeq, active)
    }

    constructor Load(c: Codec, coldKey: Option<Text>, onDisk: Disk)
      ensures this.c == c && this.coldKey == coldKey
      ensures disk == LoadedDisk(c, coldKey, onDisk) && Mem() == LoadedMemory(c, coldKey, onDisk)
      ensures lastSeq == (if onDisk.last == None then 0 else onDisk.last.value) && disk.last == onDisk.last
      ensures active == disk.current && active in {None, onDisk.current}
      ensures active.Some? <==> onDisk.current.Some? && coldKey.Some? && Verifies(c, coldKey.value, onDisk.current.value.envelope)
    {
      this.c := c;
      this.coldKey := coldKey;
      lastSeq := if onDisk.last.Some? then onDisk.last.value else 0;
      if onDisk.current.None? {
        disk, active := onDisk, None;
      } else if coldKey.None? || !Verifies(c, coldKey.value, onDisk.current.value.envelope) {
        disk, active := onDisk.(current := None), None;
      } else {
        disk, active := onDisk, onDisk.current;
      }
    }

    /** A rejected signal changes nothing; a failed second write leaves the first one's file behind. */
    method Apply(env: Envelope, now: Time, currentFails: bool, lastFails: bool) returns (r: Result<Stored, Refusal>)
      modifies this`disk, this`lastSeq, this`active
      ensures var v := Validate(c, coldKey, old(lastSeq), env, now);
              && (v.Err? ==> r == Err(v.error) && disk == old(disk) && Mem() == old(Mem()))
              && (v.Ok? && currentFails ==> r == Err(WriteFailed) && disk == old(disk) && Mem() == old(Mem()))
              && (v.Ok? && !currentFails && lastFails ==>
                    r == Err(WriteFailed) && disk == old(disk).(current := Some(Stored(env, v.value))) && Mem() == old(Mem()))
              && (v.Ok? && !currentFails && !lastFails ==>
                    && r == Ok(Stored(env, v.value))
                    && disk == Disk(Some(Stored(env, v.value)), Some(v.value.sequenceNumber))
                    && Mem() == Memory(v.value.sequenceNumber, Some(Stored(env, v.value))))
    {
      if coldKey.None? {
        return Err(NotConfigured);
      }
      if env.payload == [] || env.signature == [] {
        return Err(InvalidEnvelope);
      }
      var sig := c.decode(env.signature);
      if sig.None? || |sig.value| != SIGNATURE_SIZE {
        return Err(InvalidSignatureFormat);
      }
      if !c.verify(coldKey.value, env.payload, sig.value) {
        return Err(InvalidSignature);
      }
      var parsed := c.parse(env.payload);
      if parsed.None? {
        return Err(InvalidPayload);
      }
      var s := parsed.value;
      if s.kind != SIGNAL_TYPE {
        return Err(WrongType);
      }
      if s.version != SIGNAL_VERSION {
        return Err(WrongVersion);
      }
      if s.scope != SIGNAL_SCOPE {
        return Err(WrongScope);
      }
      if s.expiresAt.None? {
        return Err(MalformedTimestamp);
      }
      if !(s.expiresAt.value > now) {
        return Err(Expired);
      }
      if s.issuedAt.None? {
        return Err(MalformedTimestamp);
      }
      if s.sequenceNumber <= lastSeq {
        return Err(SequenceNotMonotonic);
      }
      var stored := Stored(env, s);
      if currentFails {
        return Err(WriteFailed);
      }
      disk := disk.(current := Some(stored));
      if lastFails {
        return Err(WriteFailed);
      }
      disk := disk.(last := Some(s.sequenceNumber));
      active := Some(stored);
      lastSeq := s.sequenceNumber;
      return Ok(stored);
    }

    /** A timestamp that does not parse keeps the provider paused. */
    method IsPaused(now: Time) returns (paused: bool)
      ensures paused == PausedBy(active, now)
      ensures active == None ==> !paused
      ensures active.Some? && active.value.signal.expiresAt == None ==> paused
      ensures active.Some? && active.value.signal.expiresAt.Some? ==> (paused <==> now < active.value.signal.expiresAt.value)
    {
      if active.None? {
        return false;
      }
      var expiresAt := active.value.signal.expiresAt;
      if expiresAt.None? {
        return true;
      }
      return expiresAt.value > now;
    }
  }

  // ----- runs with crashes -----

  /** Where an Apply ends: it may fail or be cut off by a crash after none, one or both of its writes. */
  datatype Cut = Whole | FirstFails | SecondFails | CrashBefore | CrashBetween | CrashAfter

  datatype Event = Apply(env: Envelope, now: Time, cut: Cut) | Crash | Load

  /** `accepted` is history: the sequence numbers Apply returned success for, in order. */
  datatype World = World(disk: Disk, memory: Option<Memory>, accepted: seq<int>)

  const EMPTY := World(Disk(None, None), None, [])

  function ApplyStep(c: Codec, coldKey: Option<Text>, w: World, env: Envelope, now: Time, cut: Cut): World
    requires w.memory.Some?
  {
    match Validate(c, coldKey, w.memory.value.lastSeq, env, now)
    case Err(_) => w
    case Ok(s) =>
      var stored := Stored(env, s);
      var first := w.disk.(current := Some(stored));
      var both := Disk(Some(stored), Some(s.sequenceNumber));
      match cut
      case Whole => World(both, Some(Memory(s.sequenceNumber, Some(stored))), w.accepted + [s.sequenceNumber])
      case FirstFails => w
      case SecondFails => w.(disk := first)
      case CrashBefore => w.(memory := None)
      case CrashBetween => w.(disk := first, memory := None)
      case CrashAfter => w.(disk := both, memory := None)
  }

  function Step(c: Codec, coldKey: Option<Text>, w: World, ev: Event): Option<World> {
    match ev
    case Apply(env, now, cut) => if w.memory.None? then None else Some(ApplyStep(c, coldKey, w, env, now, cut))
    case Crash => Some(w.(memory := None))
    case Load =>
      if w.memory.Some? then None
      else Some(w.(disk := LoadedDisk(c, coldKey, w.disk), memory := Some(LoadedMemory(c, coldKey, w.disk))))
  }

  function Run(c: Codec, coldKey: Option<Text>, events: seq<Event>): Option<World> {
    if events == [] then Some(EMPTY)
    else
      match Run(c, coldKey, events[..|events| - 1])
      case None => None
      case Some(w) => Step(c, coldKey, w, events[|events| - 1])
  }

  ghost predicate Increasing(s: seq<int>) {
    forall i, j :: 0 <= i < j < |s| ==> s[i] < s[j]
  }

  /**
   * The counter on disk is at most the current signal's number and at least every accepted one; the
   * running process agrees with it; and the current signal is still trusted.
   */
  ghost predicate Inv(c: Codec, coldKey: Option<Text>, w: World) {
    && (w.disk.current.None? ==> w.disk.last.None? && w.accepted == [])
    && (w.disk.current.Some? ==>
          && Trusted(c, coldKey, w.disk) && c.parse(w.disk.current.value.envelope.payload) == Some(w.disk.current.value.signal)
          && LastOf(w.disk) <= w.disk.current.value.signal.sequenceNumber)
    && (forall i :: 0 <= i < |w.accepted| ==> w.accepted[i] <= LastOf(w.disk))
    && Increasing(w.accepted)
    && (w.memory.Some? ==> w.memory.value.lastSeq == LastOf(w.disk))
  }

  /**
   * Over any run of signals, failed writes, crashes and restarts with one key: the numbers Apply
   * returned success for strictly increase, and none is above the counter on disk, which is never
   * above the number in the current file.
   */
  lemma {:induction false} SequenceSafety(c: Codec, coldKey: Option<Text>, events: seq<Event>)
    requires Run(c, coldKey, events).Some?
    ensures Inv(c, coldKey, Run(c, coldKey, events).value)
  {
    if events != [] {
      var before, ev := events[..|events| - 1], events[|events| - 1];
      SequenceSafety(c, coldKey, before);
      var w := Run(c, coldKey, before).value;
      if ev.Apply? {
        ValidateAccepts(c, coldKey, w.memory.value.lastSeq, ev.env, ev.now);
      }
    }
  }

  /** Restarting after any run finds the pause that is on disk, and loses nothing. */
  lemma RestartKeepsThePause(c: Codec, coldKey: Option<Text>, events: seq<Event>)
    requires Run(c, coldKey, events).Some?
    ensures var d := Run(c, coldKey, events).value.disk;
            LoadedDisk(c, coldKey, d) == d && LoadedMemory(c, coldKey, d) == Memory(LastOf(d), d.current)
  {
    SequenceSafety(c, coldKey, events);
  }

  /**
   * The stale counter. After any run and a restart, the signal in the current file is taken again,
   * expiry permitting, exactly when the counter is behind its number; so a crash between the two
   * writes does not make the file's own number a used one, whatever the source's comment says.
   */
  lemma CurrentTakenAgainIff(c: Codec, coldKey: Option<Text>, events: seq<Event>, now: Time)
    requires Run(c, coldKey, events).Some? && Run(c, coldKey, events).value.disk.current.Some?
    requires var d := Run(c, coldKey, events).value.disk;
             WellSigned(c, coldKey, d.current.value.envelope, now)
    ensures var d := Run(c, coldKey, events).value.disk;
            Validate(c, coldKey, LoadedMemory(c, coldKey, d).lastSeq, d.current.value.envelope, now).Ok? <==>
              LastOf(d) < d.current.value.signal.sequenceNumber
  {
    SequenceSafety(c, coldKey, events);
    var d := Run(c, coldKey, events).value.disk;
    ValidateAccepts(c, coldKey, LoadedMemory(c, coldKey, d).lastSeq, d.current.value.envelope, now);
  }

  /** Such a run exists for any acceptable signal: load, apply cut between the writes, load. */
  lemma CrashLeavesStaleCounter(c: Codec, coldKey: Option<Text>, env: Envelope, now: Time) returns (events: seq<Event>)
    requires WellSigned(c, coldKey, env, now) && c.parse(env.payload).value.sequenceNumber > 0
    ensures Run(c, coldKey, events).Some?
    ensures var w := Run(c, coldKey, events).value;
            && w.memory.Some? && w.accepted == [] && w.disk.current.Some? && w.disk.current.value.envelope == env
            && Validate(c, coldKey, w.memory.value.lastSeq, env, now).Ok?
  {
    ValidateAccepts(c, coldKey, 0, env, now);
    events := [Load, Apply(env, now, CrashBetween), Load];
    var e1, e2 := [Load], [Load, Apply(env, now, CrashBetween)];
    assert e1[..0] == [] && e2[..1] == e1 && events[..2] == e2;
    var w1 := EMPTY.(memory := Some(Memory(0, None)));
    assert Run(c, coldKey, e1) == Some(w1);
    var w2 := World(Disk(Some(Stored(env, c.parse(env.payload).value)), None), None, []);
    assert Run(c, coldKey, e2) == Some(w2);
  }
}
