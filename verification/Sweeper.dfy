/** The garbage collector's cycle over the two directories (gc/sweeper.go, gc/quarantine.go). */
module Sweeper {
  import opened Basics
  import opened Coverage
  import opened SweepSpec

  type Dir = map<Name, File>

  datatype Metrics = Metrics(sweepsOK: nat, sweepsError: nat, candidatesSeen: nat, quarantined: nat, unlinked: nat,
                             recovered: nat, recheckNetwork: nat, recheckTimeout: nat, recheck5xx: nat,
                             recheckParse: nat, gaugeMarked: int, gaugeQuarantined: int, gaugeQuarantineBytes: int)

  /** What a phase did to a root, as far as a counter exists for it. */
  datatype Happening = Nothing | DidRecover | DidUnlink | DidQuarantine | DidFail(reason: string)

  function Count(m: Metrics, h: Happening): Metrics {
    match h
    case Nothing => m
    case DidRecover => m.(recovered := m.recovered + 1)
    case DidUnlink => m.(unlinked := m.unlinked + 1)
    case DidQuarantine => m.(quarantined := m.quarantined + 1)
    case DidFail(reason) => CountFailure(m, reason)
  }

  /** The end of a cycle: the gauges are set and the cycle is counted. */
  function Published(m: Metrics, marked: int, entries: int, bytes: int, candidates: nat): Metrics {
    m.(gaugeMarked := marked, gaugeQuarantined := entries, gaugeQuarantineBytes := bytes,
       sweepsOK := m.sweepsOK + 1, candidatesSeen := m.candidatesSeen + candidates)
  }

  /** An early end leaves the gauges as they were. */
  function Unfinished(m: Metrics, outcome: Outcome, candidates: nat): Metrics {
    m.(sweepsError := m.sweepsError + if outcome == ListFailed then 1 else 0, candidatesSeen := m.candidatesSeen + candidates)
  }

  /** A reason outside the four labels, "no_reclaimable_field" among them, is not counted. */
  function CountFailure(m: Metrics, reason: string): Metrics {
    if reason == "network" then m.(recheckNetwork := m.recheckNetwork + 1)
    else if reason == "timeout" then m.(recheckTimeout := m.recheckTimeout + 1)
    else if reason == "5xx" then m.(recheck5xx := m.recheck5xx + 1)
    else if reason == "parse" then m.(recheckParse := m.recheckParse + 1)
    else m
  }

  /**
   * Of the rechecks that give no usable answer, all are counted but one kind: a reply for the root
   * without the `reclaimable` field, which the source's comments list among the counted ones.
   */
  lemma FailureCountedUnlessFieldMissing(m: Metrics, reply: QueryResult, root: Name)
    requires RecheckOf(reply, root).Unusable?
    ensures CountFailure(m, RecheckOf(reply, root).reason) == m <==> reply.Ok? && root in reply.value
  {
  }

  // ----- directories -----

  /** The data directory. */
  datatype Disk = Disk(objects: Dir, quarantine: Dir, index: map<Name, Text>, ownership: map<Name, Text>,
                       coverage: map<Name, Record>)
  {
    function At(n: Name): Slot {
      Slot(Lookup(objects, n), Lookup(quarantine, n), Lookup(index, n), Lookup(ownership, n), Lookup(coverage, n))
    }
  }

  /** The names a listing shows. */
  ghost function Visible(dir: Dir): set<Name> {
    set n | n in dir && IsHexName(n)
  }

  ghost function SumBytes(dir: Dir, names: set<Name>): int
    requires names <= dir.Keys
  {
    if names == {} then 0
    else
      var n :| n in names;
      |dir[n].bytes| + SumBytes(dir, names - {n})
  }

  lemma {:induction false} SumBytesSplit(dir: Dir, names: set<Name>, n: Name)
    requires names <= dir.Keys && n in names
    ensures SumBytes(dir, names) == |dir[n].bytes| + SumBytes(dir, names - {n})
    decreases names
  {
    var m :| m in names && SumBytes(dir, names) == |dir[m].bytes| + SumBytes(dir, names - {m});
    if m != n {
      SumBytesSplit(dir, names - {m}, n);
      SumBytesSplit(dir, names - {n}, m);
      assert names - {m} - {n} == names - {n} - {m};
    }
  }

  lemma {:induction false} SumBytesFrame(dir: Dir, dir': Dir, names: set<Name>)
    requires names <= dir.Keys && names <= dir'.Keys
    requires forall n :: n in names ==> |dir[n].bytes| == |dir'[n].bytes|
    ensures SumBytes(dir, names) == SumBytes(dir', names)
    decreases names
  {
    if names != {} {
      var n :| n in names && SumBytes(dir, names) == |dir[n].bytes| + SumBytes(dir, names - {n});
      SumBytesFrame(dir, dir', names - {n});
      SumBytesSplit(dir', names, n);
    }
  }

  /** Byte order, a prefix first. */
  predicate UpTo(a: Name, b: Name) {
    a == [] || (b != [] && (a[0] < b[0] || (a[0] == b[0] && UpTo(a[1..], b[1..]))))
  }

  /** A name comes before those it is a prefix of, and else the first byte that differs decides. */
  lemma {:induction false} UpToIs(a: Name, b: Name, k: nat)
    requires k <= |a| && k <= |b| && a[..k] == b[..k]
    requires k == |a| || (k < |b| && a[k] != b[k])
    ensures UpTo(a, b) <==> k == |a| || a[k] < b[k]
  {
    if k > 0 {
      assert a[0] == a[..k][0] == b[..k][0] == b[0];
      assert a[1..][..k - 1] == a[..k][1..] && b[1..][..k - 1] == b[..k][1..];
      UpToIs(a[1..], b[1..], k - 1);
    }
  }

  lemma {:induction false} UpToTotal(a: Name, b: Name)
    ensures UpTo(a, b) || UpTo(b, a)
  {
    if a != [] && b != [] {
      UpToTotal(a[1..], b[1..]);
    }
  }

  lemma {:induction false} UpToTransitive(a: Name, b: Name, c: Name)
    requires UpTo(a, b) && UpTo(b, c)
    ensures UpTo(a, c)
  {
    if a != [] && a[0] == b[0] == c[0] {
      UpToTransitive(a[1..], b[1..], c[1..]);
    }
  }

  ghost predicate Sorted(names: seq<Name>) {
    forall i, j :: 0 <= i < j < |names| ==> UpTo(names[i], names[j])
  }

  method Insert(names: seq<Name>, n: Name) returns (r: seq<Name>)
    requires Sorted(names) && Distinct(names) && n !in names
    ensures Sorted(r) && Distinct(r) && forall m :: m in r <==> m == n || m in names
  {
    var k := 0;
    while k < |names| && UpTo(names[k], n)
      invariant 0 <= k <= |names| && forall i :: 0 <= i < k ==> UpTo(names[i], n)
    {
      k := k + 1;
    }
    forall j | k <= j < |names|
      ensures UpTo(n, names[j])
    {
      UpToTotal(n, names[k]);
      if k < j {
        UpToTransitive(n, names[k], names[j]);
      }
    }
    r := names[..k] + [n] + names[k..];
  }

  method ListNames(dir: Dir) returns (names: seq<Name>)
    ensures Distinct(names)
    ensures forall n :: n in names <==> n in dir && IsHexName(n)
  {
    names := [];
    var rest := dir.Keys;
    while rest != {}
      invariant rest <= dir.Keys && Distinct(names)
      invariant forall n :: n in names <==> n in dir && n !in rest && IsHexName(n)
      decreases rest
    {
      var n :| n in rest;
      if IsHexName(n) {
        names := names + [n];
      }
      rest := rest - {n};
    }
  }

  /** What the coordinator answers when a phase asks about a root, and which file operations fail. */
  datatype World = World(inQuar: Name -> Recheck, inObjects: Name -> Recheck, io: Name -> Faults,
                         listQuarFails: bool, listObjectsFails: bool, cancelledAt: Option<nat>)
  {
    /** The context is still live at the first n polls; once cancelled it stays so. */
    predicate LiveFor(n: int) {
      cancelledAt.Some? ==> n <= cancelledAt.value
    }
  }

  /** One cycle: its settings, its start and the world it meets. Names that are not hex are never listed. */
  datatype Pass = Pass(cfg: Config, now: Time, w: World)
  {
    function After1(n: Name, s: Slot): Slot {
      if IsHexName(n) then Phase1(cfg, now, s, w.inQuar(n), w.io(n)) else s
    }

    function After2(n: Name, s: Slot): Slot {
      if IsHexName(n) then Phase2(cfg, now, s, w.inObjects(n), w.io(n)) else s
    }

    function Did1(n: Name, s: Slot): Happening {
      if s.quar.None? || w.io(n).info then Nothing
      else if w.inQuar(n).Unusable? then DidFail(w.inQuar(n).reason)
      else if Restores(s, w.inQuar(n), w.io(n)) then DidRecover
      else if Destroys(cfg, now, s, w.inQuar(n), w.io(n)) then DidUnlink
      else Nothing
    }

    function Did2(n: Name, s: Slot): Happening {
      if !Due(cfg, now, s, w.io(n)) then Nothing
      else if w.inObjects(n).Unusable? then DidFail(w.inObjects(n).reason)
      else if Quarantines(cfg, now, s, w.inObjects(n), w.io(n)) && !w.io(n).stamp then DidQuarantine
      else Nothing
    }

    /** Live, and reclaimable in the cache. */
    predicate Marked(n: Name, s: Slot) {
      s.live.Some? && s.cov.Some? && !w.io(n).readCov && s.cov.value.answer.reclaimable
    }

    /** Marked, and not moved to quarantine by this cycle. */
    predicate StaysMarked(n: Name, s: Slot) {
      Marked(n, s) && Did2(n, s) != DidQuarantine
    }
  }

  datatype Outcome = Completed | ListFailed | Cancelled

  // ----- counting roots -----

  ghost function Tally<T>(names: set<Name>, f: Name -> T, v: T): nat {
    |set n | n in names && f(n) == v|
  }

  lemma TallyIs<T>(names: set<Name>, f: Name -> T, v: T, s: set<Name>)
    requires forall n :: n in names && f(n) == v <==> n in s
    ensures Tally(names, f, v) == |s|
  {
    assert (set n | n in names && f(n) == v) == s;
  }

  lemma TallyNext<T>(names: set<Name>, n: Name, f: Name -> T, v: T)
    requires n !in names
    ensures Tally(names + {n}, f, v) == Tally(names, f, v) + if f(n) == v then 1 else 0
  {
    var was := set m | m in names && f(m) == v;
    assert (set m | m in names + {n} && f(m) == v) == if f(n) == v then was + {n} else was;
  }

  function Doing1(p: Pass, d: Disk): Name -> Happening {
    n => p.Did1(n, d.At(n))
  }

  function Doing2(p: Pass, d: Disk): Name -> Happening {
    n => p.Did2(n, d.At(n))
  }

  function Marking(p: Pass, d: Disk): Name -> bool {
    n => p.Marked(n, d.At(n))
  }

  function StayingMarked(p: Pass, d: Disk): Name -> bool {
    n => p.StaysMarked(n, d.At(n))
  }

  /** Every counter goes up by the number of these roots it is about. */
  ghost function AddTallies(m: Metrics, names: set<Name>, did: Name -> Happening): Metrics {
    m.(recovered := m.recovered + Tally(names, did, DidRecover),
       unlinked := m.unlinked + Tally(names, did, DidUnlink),
       quarantined := m.quarantined + Tally(names, did, DidQuarantine),
       recheckNetwork := m.recheckNetwork + Tally(names, did, DidFail("network")),
       recheckTimeout := m.recheckTimeout + Tally(names, did, DidFail("timeout")),
       recheck5xx := m.recheck5xx + Tally(names, did, DidFail("5xx")),
       recheckParse := m.recheckParse + Tally(names, did, DidFail("parse")))
  }

  lemma CountNext(m: Metrics, names: set<Name>, did: Name -> Happening, n: Name)
    requires n !in names
    ensures AddTallies(m, names + {n}, did) == Count(AddTallies(m, names, did), did(n))
  {
    TallyNext(names, n, did, DidRecover);
    TallyNext(names, n, did, DidUnlink);
    TallyNext(names, n, did, DidQuarantine);
    TallyNext(names, n, did, DidFail("network"));
    TallyNext(names, n, did, DidFail("timeout"));
    TallyNext(names, n, did, DidFail("5xx"));
    TallyNext(names, n, did, DidFail("parse"));
  }

  lemma NoTallies(m: Metrics, did: Name -> Happening)
    ensures AddTallies(m, {}, did) == m
  {
  }

  /** Of these roots, `seen` were marked and `marked` still are. */
  ghost predicate MarkedSo(p: Pass, d: Disk, names: set<Name>, seen: int, marked: int) {
    seen == Tally(names, Marking(p, d), true) && marked == Tally(names, StayingMarked(p, d), true)
  }

  lemma MarkedNext(p: Pass, d: Disk, names: set<Name>, seen: int, marked: int, n: Name)
    requires MarkedSo(p, d, names, seen, marked) && n !in names
    ensures MarkedSo(p, d, names + {n}, seen + if p.Marked(n, d.At(n)) then 1 else 0,
                     marked + if p.StaysMarked(n, d.At(n)) then 1 else 0)
  {
    TallyNext(names, n, Marking(p, d), true);
    TallyNext(names, n, StayingMarked(p, d), true);
  }

  ghost function Listed1(p: Pass, d: Disk): set<Name> {
    set n | n in d.quarantine && IsHexName(n) && !p.w.io(n).info
  }

  /** What a completed cycle reports, given the disk before it and between its phases, and its quarantine gauges. */
  ghost function Report(p: Pass, before: Disk, between: Disk, m: Metrics, entries: int, bytes: int): Metrics {
    Published(AddTallies(AddTallies(m, Listed1(p, before), Doing1(p, before)), Visible(between.objects), Doing2(p, between)),
              Tally(Visible(between.objects), StayingMarked(p, between), true), entries, bytes,
              |Listed1(p, before)| + Tally(Visible(between.objects), Marking(p, between), true))
  }

  /** The live roots that the cache calls reclaimable. */
  ghost function MarkedLive(d: Disk): set<Name> {
    set n | n in Visible(d.objects) && n in d.coverage && d.coverage[n].answer.reclaimable
  }

  lemma StaysMarkedAfter(p: Pass, n: Name, s: Slot)
    requires IsHexName(n) && !p.w.io(n).readCov && !p.w.io(n).stamp
    ensures var s' := p.After2(n, s);
            p.StaysMarked(n, s) <==> s'.live.Some? && s'.cov.Some? && s'.cov.value.answer.reclaimable
  {
  }

  /** When every record can be read and every move is stamped, the marked gauge counts the marked objects. */
  lemma MarkedGaugeExact(p: Pass, between: Disk, after: Disk)
    requires Phase2Done(p, between, after)
    requires MarksTracked(p)
    ensures Tally(Visible(between.objects), StayingMarked(p, between), true) == |MarkedLive(after)|
  {
    forall n
      ensures n in Visible(between.objects) && StayingMarked(p, between)(n) == true <==> n in MarkedLive(after)
    {
      assert after.At(n) == p.After2(n, between.At(n));
      StaysMarkedOnDisk(p, between, after, n);
    }
    TallyIs(Visible(between.objects), StayingMarked(p, between), true, MarkedLive(after));
  }

  lemma StaysMarkedOnDisk(p: Pass, between: Disk, after: Disk, n: Name)
    requires after.At(n) == p.After2(n, between.At(n)) && !p.w.io(n).readCov && !p.w.io(n).stamp
    ensures n in Visible(between.objects) && StayingMarked(p, between)(n) <==> n in MarkedLive(after)
  {
    var s, s' := between.At(n), after.At(n);
    assert n in between.objects <==> s.live.Some?;
    assert n in MarkedLive(after) <==> IsHexName(n) && s'.live.Some? && s'.cov.Some? && s'.cov.value.answer.reclaimable;
    if IsHexName(n) {
      StaysMarkedAfter(p, n, s);
    }
  }

  // ----- the disk between the steps -----

  ghost predicate OnlyAt(d: Disk, d': Disk, n: Name) {
    forall m :: m != n ==> d'.At(m) == d.At(m)
  }

  ghost predicate AllDisjoint(d: Disk) {
    forall n :: Disjoint(d.At(n))
  }

  /** The quarantine gauges can be trusted: every root in one place, every inode read, every entry stamped. */
  ghost predicate EntriesExact(p: Pass, d: Disk) {
    AllDisjoint(d) && InodesRead(p) && forall n :: !p.w.io(n).stamp
  }

  ghost predicate Phase1Done(p: Pass, before: Disk, between: Disk) {
    forall n :: between.At(n) == p.After1(n, before.At(n))
  }

  ghost predicate Phase2Done(p: Pass, between: Disk, after: Disk) {
    forall n :: after.At(n) == p.After2(n, between.At(n))
  }

  ghost predicate BothDone(p: Pass, before: Disk, after: Disk) {
    forall n :: after.At(n) == p.After2(n, p.After1(n, before.At(n)))
  }

  /** A cycle that ended early: the roots it got to, and no others, have been through their phase and are counted. */
  ghost predicate Stopped(p: Pass, before: Disk, between: Disk, after: Disk, m0: Metrics, m: Metrics, outcome: Outcome,
                          seen1: set<Name>, seen2: set<Name>)
  {
    && seen1 <= Listed1(p, before) && Through1(p, before, between, seen1)
    && seen2 <= Visible(between.objects) && Through2(p, between, after, seen2)
    && (outcome == ListFailed ==> seen2 == {})
    && m == Unfinished(AddTallies(AddTallies(m0, seen1, Doing1(p, before)), seen2, Doing2(p, between)), outcome,
                       |seen1| + Tally(seen2, Marking(p, between), true))
  }

  /** Every root is untouched, or after phase 1, or after both phases. */
  ghost predicate OnTheWay(p: Pass, before: Disk, d: Disk) {
    forall n :: d.At(n) == before.At(n) || d.At(n) == p.After1(n, before.At(n))
                || d.At(n) == p.After2(n, p.After1(n, before.At(n)))
  }

  ghost predicate AllConserved(p: Pass, before: Disk, after: Disk) {
    forall n :: IsHexName(n) ==> Conserved(p.cfg, p.now, before.At(n), after.At(n), p.w.inQuar(n))
  }

  ghost predicate InodesRead(p: Pass) {
    forall n :: !p.w.io(n).info
  }

  /** Every record can be read and every move is stamped. */
  ghost predicate MarksTracked(p: Pass) {
    forall n :: !p.w.io(n).readCov && !p.w.io(n).stamp
  }

  ghost predicate NoFaults(p: Pass) {
    forall n :: p.w.io(n) == NO_FAULTS
  }

  /** Exactly the visited roots have been through phase 1. */
  ghost predicate Through1(p: Pass, was: Disk, d: Disk, visited: set<Name>) {
    forall n :: d.At(n) == if n in visited then p.After1(n, was.At(n)) else was.At(n)
  }

  ghost predicate Through2(p: Pass, was: Disk, d: Disk, visited: set<Name>) {
    forall n :: d.At(n) == if n in visited then p.After2(n, was.At(n)) else was.At(n)
  }

  lemma Through1Next(p: Pass, was: Disk, d: Disk, d': Disk, visited: set<Name>, n: Name)
    requires Through1(p, was, d, visited) && n !in visited && OnlyAt(d, d', n) && d'.At(n) == p.After1(n, d.At(n))
    ensures Through1(p, was, d', visited + {n})
  {
  }

  lemma Through2Next(p: Pass, was: Disk, d: Disk, d': Disk, visited: set<Name>, n: Name)
    requires Through2(p, was, d, visited) && n !in visited && OnlyAt(d, d', n) && d'.At(n) == p.After2(n, d.At(n))
    ensures Through2(p, was, d', visited + {n})
  {
  }

  /** What is not listed is not changed by phase 1, so visiting the listing is all of it. */
  lemma AllThrough1(p: Pass, was: Disk, d: Disk, visited: set<Name>)
    requires Through1(p, was, d, visited) && visited == Listed1(p, was)
    ensures Phase1Done(p, was, d)
  {
  }

  lemma AllThrough2(p: Pass, was: Disk, d: Disk, visited: set<Name>)
    requires Through2(p, was, d, visited) && visited == Visible(was.objects)
    ensures Phase2Done(p, was, d)
  {
  }

  /** The gauges tell the truth about quarantine/. */
  ghost predicate GaugesExact(quarantine: Dir, entries: int, bytes: int) {
    entries == |Visible(quarantine)| && bytes == SumBytes(quarantine, Visible(quarantine))
  }

  /** visited holds the first i of the names. */
  ghost predicate Visits(names: seq<Name>, i: nat, visited: set<Name>) {
    && (forall j :: 0 <= j < |names| ==> (names[j] in visited <==> j < i))
    && (forall n :: n in visited ==> n in names)
    && |visited| == i
  }

  lemma VisitsNext(names: seq<Name>, i: nat, visited: set<Name>)
    requires i < |names| && Distinct(names) && Visits(names, i, visited)
    ensures Visits(names, i + 1, visited + {names[i]})
  {
  }

  class Sweeper {
    const cfg: Config
    var disk: Disk
    var metrics: Metrics

    constructor (cfg: Config, disk: Disk, metrics: Metrics)
      ensures this.cfg == cfg && this.disk == disk && this.metrics == metrics
    {
      this.cfg, this.disk, this.metrics := cfg, disk, metrics;
    }

    // ----- gc/quarantine.go -----

    method MoveToQuarantine(n: Name, now: Time, io: Faults) returns (ok: bool)
      modifies this`disk
      ensures ok == (old(disk).At(n).live.Some? && !io.rename && !io.stamp)
      ensures disk.At(n) == if old(disk).At(n).live.None? || io.rename then old(disk).At(n)
                            else if io.stamp then Renamed(old(disk).At(n))
                            else Stamped(Renamed(old(disk).At(n)), now)
      ensures OnlyAt(old(disk), disk, n)
    {
      if n !in disk.objects || io.rename {
        return false;
      }
      var file := disk.objects[n];
      disk := disk.(objects := disk.objects - {n}, quarantine := disk.quarantine[n := file]);
      if io.stamp {
        return false;
      }
      disk := disk.(quarantine := disk.quarantine[n := file.(mtime := now)]);
      return true;
    }

    method RestoreFromQuarantine(n: Name, io: Faults) returns (ok: bool)
      modifies this`disk
      ensures ok == (old(disk).At(n).quar.Some? && !io.restore)
      ensures disk.At(n) == if ok then Restored(old(disk).At(n)) else old(disk).At(n)
      ensures OnlyAt(old(disk), disk, n)
    {
      if n !in disk.quarantine || io.restore {
        return false;
      }
      disk := disk.(objects := disk.objects[n := disk.quarantine[n]], quarantine := disk.quarantine - {n});
      return true;
    }

    method UnlinkFromQuarantine(n: Name, io: Faults) returns (ok: bool)
      modifies this`disk
      ensures ok == (old(disk).At(n).quar.Some? && !io.unlink)
      ensures disk.At(n) == if ok then Unlinked(old(disk).At(n)) else old(disk).At(n)
      ensures OnlyAt(old(disk), disk, n)
    {
      if n !in disk.quarantine || io.unlink {
        return false;
      }
      disk := disk.(quarantine := disk.quarantine - {n});
      return true;
    }

    /** Store.DeleteIndexAndOwnership and Store.DeleteCoverage; failures are only logged. */
    method DropRecords(n: Name, io: Faults)
      modifies this`disk
      ensures disk.At(n) == CovDropped(OwnerDropped(IndexDropped(old(disk).At(n), io.dropIndex), io.dropOwner), io.dropCov)
      ensures OnlyAt(old(disk), disk, n)
    {
      if !io.dropIndex {
        disk := disk.(index := disk.index - {n});
      }
      if !io.dropOwner {
        disk := disk.(ownership := disk.ownership - {n});
      }
      if !io.dropCov {
        disk := disk.(coverage := disk.coverage - {n});
      }
    }

    /** ListQuarantined: sorted by name; an entry whose inode cannot be read is skipped. */
    method ListQuarantined(io: Name -> Faults) returns (names: seq<Name>)
      ensures Distinct(names) && Sorted(names)
      ensures forall n :: n in names <==> n in disk.quarantine && IsHexName(n) && !io(n).info
    {
      var all := ListNames(disk.quarantine);
      names := [];
      for i := 0 to |all|
        invariant Distinct(names) && Sorted(names)
        invariant forall n :: n in names <==> n in all[..i] && !io(n).info
      {
        assert all[i] !in all[..i];
        if !io(all[i]).info {
          names := Insert(names, all[i]);
        }
      }
      assert all[..|all|] == all;
    }

    // ----- gc/sweeper.go -----

    /** Phase 1's loop body. `left` says whether the entry left quarantine/. */
    method SweepQuarantined(n: Name, entry: File, now: Time, w: World) returns (left: bool)
      requires disk.At(n).quar == Some(entry) && IsHexName(n) && !w.io(n).info
      modifies this
      ensures disk.At(n) == Pass(cfg, now, w).After1(n, old(disk).At(n)) && OnlyAt(old(disk), disk, n)
      ensures left <==> disk.At(n).quar.None?
      ensures metrics.recovered == old(metrics.recovered) + if left && w.inQuar(n).Retained? then 1 else 0
      ensures metrics.unlinked == old(metrics.unlinked) + if left && w.inQuar(n).Reclaimable? then 1 else 0
      ensures metrics == Count(old(metrics), Pass(cfg, now, w).Did1(n, old(disk).At(n)))
    {
      var io := w.io(n);
      match w.inQuar(n) {
        case Unusable(reason) =>
          metrics := CountFailure(metrics, reason);
          return false;
        case Retained =>
          var ok := RestoreFromQuarantine(n, io);
          if !ok {
            return false;
          }
          if !io.writeBack {
            var prior := Lookup(disk.coverage, n);
            disk := disk.(coverage := disk.coverage[n := Updated(prior, COVERED_ANSWER, now)]);
          }
          metrics := metrics.(recovered := metrics.recovered + 1);
          return true;
        case Reclaimable =>
          var age := now - entry.mtime;
          if age < cfg.window {
            return false;
          }
          var ok := UnlinkFromQuarantine(n, io);
          if !ok {
            return false;
          }
          DropRecords(n, io);
          metrics := metrics.(unlinked := metrics.unlinked + 1);
          return true;
      }
    }

    /** Is the root marked, and has its retention timer run out? */
    method CheckTimer(n: Name, now: Time, io: Faults) returns (marked: bool, due: bool)
      requires n in disk.objects
      ensures marked == (n in disk.coverage && !io.readCov && disk.coverage[n].answer.reclaimable)
      ensures due == Due(cfg, now, disk.At(n), io)
    {
      if n !in disk.coverage || io.readCov {
        return false, false;
      }
      var cov := disk.coverage[n];
      if !cov.answer.reclaimable {
        return false, false;
      }
      var firstSeen := now;
      if cov.firstSeenReclaimable.Some? {
        firstSeen := cov.firstSeenReclaimable.value;
      }
      if !io.readMtime && disk.objects[n].mtime > firstSeen {
        firstSeen := disk.objects[n].mtime;
      }
      var age := now - firstSeen;
      return true, age >= cfg.retention;
    }

    /** Phase 2's loop body. `marked` and `moved` drive the gauges. */
    method SweepObject(n: Name, now: Time, w: World) returns (marked: bool, moved: Option<nat>)
      requires n in disk.objects && IsHexName(n)
      modifies this
      ensures disk.At(n) == Pass(cfg, now, w).After2(n, old(disk).At(n)) && OnlyAt(old(disk), disk, n)
      ensures marked == Pass(cfg, now, w).Marked(n, old(disk).At(n))
      ensures moved == if Pass(cfg, now, w).Did2(n, old(disk).At(n)) == DidQuarantine then Some(|old(disk).objects[n].bytes|)
                       else None
      ensures metrics.quarantined == old(metrics.quarantined) + if moved.Some? then 1 else 0
      ensures metrics == Count(old(metrics), Pass(cfg, now, w).Did2(n, old(disk).At(n)))
    {
      var io := w.io(n);
      var due;
      marked, due := CheckTimer(n, now, io);
      if !due {
        return marked, None;
      }
      match w.inObjects(n) {
        case Unusable(reason) =>
          metrics := CountFailure(metrics, reason);
          return true, None;
        case Retained =>
          return true, None;
        case Reclaimable =>
          if io.size {
            return true, None;
          }
          var size := |disk.objects[n].bytes|;
          var ok := MoveToQuarantine(n, now, io);
          if !ok {
            return true, None;
          }
          metrics := metrics.(quarantined := metrics.quarantined + 1);
          return true, Some(size);
      }
    }

    /** One turn of phase 1 with its gauge arithmetic over the entries visited so far. */
    method VisitEntry(n: Name, entry: File, now: Time, w: World, ghost visited: set<Name>, ghost count0: int,
                      entries0: int, bytes0: int)
        returns (entries: int, bytes: int)
      requires disk.At(n).quar == Some(entry) && IsHexName(n) && !w.io(n).info && n !in visited
      requires Counted(disk.quarantine, visited, count0, bytes0)
      modifies this
      ensures disk.At(n) == Pass(cfg, now, w).After1(n, old(disk).At(n)) && OnlyAt(old(disk), disk, n)
      ensures metrics == Count(old(metrics), Pass(cfg, now, w).Did1(n, old(disk).At(n)))
      ensures Counted(disk.quarantine, visited + {n}, count0 + 1 + entries - entries0, bytes)
    {
      entries, bytes := entries0, bytes0 + |entry.bytes|;
      var left := SweepQuarantined(n, entry, now, w);
      if left {
        entries := entries - 1;
        bytes := bytes - |entry.bytes|;
      }
      EntryStaysOrLeaves(Pass(cfg, now, w), old(disk), disk, n);
      CountedNext(old(disk).quarantine, disk.quarantine, visited, n, count0, bytes0);
    }

    /** Phase 1's loop over a listing; `visited` are the entries it got to. */
    method ScanListed(names: seq<Name>, now: Time, w: World)
        returns (done: bool, entries: int, bytes: int, polls: nat, ghost visited: set<Name>)
      requires Distinct(names)
      requires forall j :: 0 <= j < |names| ==> names[j] in disk.quarantine && IsHexName(names[j]) && !w.io(names[j]).info
      modifies this
      ensures Through1(Pass(cfg, now, w), old(disk), disk, visited) && Visits(names, polls, visited)
      ensures metrics == AddTallies(old(metrics), visited, Doing1(Pass(cfg, now, w), old(disk)))
      ensures w.LiveFor(polls) && polls <= |names| && if done then polls == |names| else polls < |names| && !w.LiveFor(polls + 1)
      ensures done ==> Counted(disk.quarantine, visited, entries, bytes)
    {
      ghost var pass, was := Pass(cfg, now, w), disk;
      var listing := disk.quarantine;
      entries, bytes, visited := |names|, 0, {};
      NoTallies(metrics, Doing1(pass, was));
      for i := 0 to |names|
        invariant Visits(names, i, visited) && Through1(pass, was, disk, visited)
        invariant metrics == AddTallies(old(metrics), visited, Doing1(pass, was))
        invariant Counted(disk.quarantine, visited, entries - |names| + i, bytes)
        invariant w.LiveFor(i)
      {
        var n := names[i];
        if !w.LiveFor(i + 1) {
          return false, entries, bytes, i, visited;
        }
        assert disk.At(n) == was.At(n);
        ghost var before := disk;
        entries, bytes := VisitEntry(n, listing[n], now, w, visited, entries - |names| + i, entries, bytes);
        Through1Next(pass, was, before, disk, visited, n);
        CountNext(old(metrics), visited, Doing1(pass, was), n);
        VisitsNext(names, i, visited);
        visited := visited + {n};
      }
      done, polls := true, |names|;
    }

    method ScanQuarantine(now: Time, w: World)
        returns (done: bool, entries: int, bytes: int, polls: nat, ghost visited: set<Name>)
      modifies this
      ensures Through1(Pass(cfg, now, w), old(disk), disk, visited) && polls == |visited|
      ensures metrics == AddTallies(old(metrics), visited, Doing1(Pass(cfg, now, w), old(disk)))
      ensures visited <= Listed1(Pass(cfg, now, w), old(disk)) && (done ==> visited == Listed1(Pass(cfg, now, w), old(disk)))
      ensures done <==> w.LiveFor(|Listed1(Pass(cfg, now, w), old(disk))|)
      ensures done && InodesRead(Pass(cfg, now, w)) ==> GaugesExact(disk.quarantine, entries, bytes)
    {
      var names := ListQuarantined(w.io);
      done, entries, bytes, polls, visited := ScanListed(names, now, w);
      if done {
        VisitedAll(names, visited, Listed1(Pass(cfg, now, w), old(disk)));
        if InodesRead(Pass(cfg, now, w)) {
          AllThrough1(Pass(cfg, now, w), old(disk), disk, visited);
          AllSettled(Pass(cfg, now, w), old(disk), disk);
        }
      } else {
        VisitedSome(names, polls, visited, Listed1(Pass(cfg, now, w), old(disk)));
        ProperSmaller(visited, Listed1(Pass(cfg, now, w), old(disk)));
      }
    }

    /** One turn of phase 2 with its gauge arithmetic. */
    method VisitObject(n: Name, now: Time, w: World, marked0: int, entries0: int, bytes0: int, ghost exact: bool)
        returns (marked: int, entries: int, bytes: int, seen: nat)
      requires n in disk.objects && IsHexName(n)
      requires exact ==> Disjoint(disk.At(n)) && GaugesExact(disk.quarantine, entries0, bytes0) && !w.io(n).stamp
      modifies this
      ensures disk.At(n) == Pass(cfg, now, w).After2(n, old(disk).At(n)) && OnlyAt(old(disk), disk, n)
      ensures metrics == Count(old(metrics), Pass(cfg, now, w).Did2(n, old(disk).At(n)))
      ensures seen == if Pass(cfg, now, w).Marked(n, old(disk).At(n)) then 1 else 0
      ensures marked == marked0 + if Pass(cfg, now, w).StaysMarked(n, old(disk).At(n)) then 1 else 0
      ensures exact ==> GaugesExact(disk.quarantine, entries, bytes)
    {
      marked, entries, bytes, seen := marked0, entries0, bytes0, 0;
      var counted, moved := SweepObject(n, now, w);
      if counted {
        marked, seen := marked + 1, seen + 1;
      }
      if moved.Some? {
        marked, entries, bytes := marked - 1, entries + 1, bytes + moved.value;
      }
      if exact {
        GaugesNext(Pass(cfg, now, w), old(disk), disk, n);
        assert GaugesExact(disk.quarantine, entries, bytes);
      }
    }

    /** Phase 2's loop over a listing; `visited` are the roots it got to. */
    method ScanRoots(roots: seq<Name>, now: Time, w: World, polls: nat, entries0: int, bytes0: int, ghost exact: bool)
        returns (done: bool, marked: int, entries: int, bytes: int, seen: nat, ghost visited: set<Name>)
      requires w.LiveFor(polls) && Distinct(roots)
      requires forall j :: 0 <= j < |roots| ==> roots[j] in disk.objects && IsHexName(roots[j])
      requires exact ==> AllDisjoint(disk) && GaugesExact(disk.quarantine, entries0, bytes0) && forall n :: !w.io(n).stamp
      modifies this
      ensures Through2(Pass(cfg, now, w), old(disk), disk, visited) && Visits(roots, |visited|, visited)
      ensures MarkedSo(Pass(cfg, now, w), old(disk), visited, seen, marked)
      ensures metrics == AddTallies(old(metrics), visited, Doing2(Pass(cfg, now, w), old(disk)))
      ensures w.LiveFor(polls + |visited|)
      ensures if done then |visited| == |roots| else |visited| < |roots| && !w.LiveFor(polls + |visited| + 1)
      ensures exact ==> GaugesExact(disk.quarantine, entries, bytes)
    {
      ghost var pass, was := Pass(cfg, now, w), disk;
      marked, entries, bytes, seen, visited := 0, entries0, bytes0, 0, {};
      NoTallies(metrics, Doing2(pass, was));
      for i := 0 to |roots|
        invariant Visits(roots, i, visited) && Through2(pass, was, disk, visited)
        invariant metrics == AddTallies(old(metrics), visited, Doing2(pass, was))
        invariant MarkedSo(pass, was, visited, seen, marked)
        invariant exact ==> GaugesExact(disk.quarantine, entries, bytes)
        invariant w.LiveFor(polls + i)
      {
        var n := roots[i];
        if !w.LiveFor(polls + i + 1) {
          done := false;
          return;
        }
        assert disk.At(n) == was.At(n) && Doing2(pass, was)(n) == pass.Did2(n, was.At(n));
        ghost var before, marked0, seen0 := disk, marked, seen;
        var s;
        marked, entries, bytes, s := VisitObject(n, now, w, marked, entries, bytes, exact);
        seen := seen + s;
        Through2Next(pass, was, before, disk, visited, n);
        CountNext(old(metrics), visited, Doing2(pass, was), n);
        MarkedNext(pass, was, visited, seen0, marked0, n);
        VisitsNext(roots, i, visited);
        visited := visited + {n};
      }
      done := true;
    }

    method ScanObjects(now: Time, w: World, polls: nat, entries0: int, bytes0: int, ghost exact: bool)
        returns (done: bool, marked: int, entries: int, bytes: int, seen: nat, ghost visited: set<Name>)
      requires w.LiveFor(polls)
      requires exact ==> EntriesExact(Pass(cfg, now, w), disk) && GaugesExact(disk.quarantine, entries0, bytes0)
      modifies this
      ensures Through2(Pass(cfg, now, w), old(disk), disk, visited)
      ensures MarkedSo(Pass(cfg, now, w), old(disk), visited, seen, marked)
      ensures metrics == AddTallies(old(metrics), visited, Doing2(Pass(cfg, now, w), old(disk)))
      ensures visited <= Visible(old(disk).objects) && (done ==> visited == Visible(old(disk).objects))
      ensures done ==> Phase2Done(Pass(cfg, now, w), old(disk), disk)
      ensures done <==> w.LiveFor(polls + |Visible(old(disk).objects)|)
      ensures exact ==> GaugesExact(disk.quarantine, entries, bytes)
    {
      var roots := ListNames(disk.objects);
      done, marked, entries, bytes, seen, visited := ScanRoots(roots, now, w, polls, entries0, bytes0, exact);
      if done {
        VisitedAll(roots, visited, Visible(old(disk).objects));
        AllThrough2(Pass(cfg, now, w), old(disk), disk, visited);
      } else {
        VisitedSome(roots, |visited|, visited, Visible(old(disk).objects));
        ProperSmaller(visited, Visible(old(disk).objects));
      }
    }

    /**
     * One cycle. It completes exactly when both listings succeed and the context is not cancelled before
     * any of the listed roots; CycleDone says what it then did and reported. Otherwise exactly the roots
     * it got to have been through their phase, and Stopped says what it reports.
     */
    method RunOnce(now: Time, w: World)
        returns (outcome: Outcome, ghost between: Disk, ghost seen1: set<Name>, ghost seen2: set<Name>)
      requires cfg.Valid()
      modifies this
      ensures outcome == Completed <==>
                && !w.listQuarFails && !w.listObjectsFails
                && (w.cancelledAt == None
                    || |Listed1(Pass(cfg, now, w), old(disk))| + |Visible(between.objects)| <= w.cancelledAt.value)
      ensures outcome == ListFailed <==>
                || w.listQuarFails
                || (w.listObjectsFails
                    && (w.cancelledAt == None || |Listed1(Pass(cfg, now, w), old(disk))| <= w.cancelledAt.value))
      ensures outcome == Completed ==> CycleDone(Pass(cfg, now, w), old(disk), between, disk, old(metrics), metrics)
      ensures outcome != Completed ==>
                Stopped(Pass(cfg, now, w), old(disk), between, disk, old(metrics), metrics, outcome, seen1, seen2)
      ensures OnTheWay(Pass(cfg, now, w), old(disk), disk)
      ensures w.listQuarFails ==> disk == old(disk)
    {
      ghost var pass := Pass(cfg, now, w);
      between, seen1, seen2 := disk, {}, {};
      if w.listQuarFails {
        metrics := Unfinished(metrics, ListFailed, 0);
        outcome := ListFailed;
        NoTallies(old(metrics), Doing1(pass, disk));
        StoppedIn1(pass, disk, disk, old(metrics), ListFailed, {});
        StoppedIsOnTheWay(pass, disk, disk, disk, {}, {});
        return;
      }
      var done, entries, bytes, polls;
      done, entries, bytes, polls, seen1 := ScanQuarantine(now, w);
      between := disk;
      if !done || w.listObjectsFails {
        outcome := if done then ListFailed else Cancelled;
        metrics := Unfinished(metrics, outcome, polls);
        StoppedIn1(pass, old(disk), disk, old(metrics), outcome, seen1);
        StoppedIsOnTheWay(pass, old(disk), disk, disk, seen1, {});
        return;
      }
      AllThrough1(pass, old(disk), between, seen1);
      ghost var counted := metrics;
      outcome, seen2 := SecondHalf(now, w, polls, entries, bytes, old(disk), old(metrics));
      if outcome == Completed {
        DoneIsOnTheWay(pass, old(disk), disk);
      } else {
        StoppedIn2(pass, old(disk), between, disk, old(metrics), counted, seen2);
        StoppedIsOnTheWay(pass, old(disk), between, disk, seen1, seen2);
      }
    }

    /** From the listing of objects/ on, given what phase 1 made of `before` and m0. */
    method SecondHalf(now: Time, w: World, polls: nat, entries0: int, bytes0: int, ghost before: Disk, ghost m0: Metrics)
        returns (outcome: Outcome, ghost visited: set<Name>)
      requires cfg.Valid() && !w.listObjectsFails && w.LiveFor(polls)
      requires Phase1Done(Pass(cfg, now, w), before, disk)
      requires polls == |Listed1(Pass(cfg, now, w), before)|
      requires metrics == AddTallies(m0, Listed1(Pass(cfg, now, w), before), Doing1(Pass(cfg, now, w), before))
      requires InodesRead(Pass(cfg, now, w)) ==> GaugesExact(disk.quarantine, entries0, bytes0)
      modifies this
      ensures outcome == Completed || outcome == Cancelled
      ensures outcome == Completed <==> w.LiveFor(polls + |Visible(old(disk).objects)|)
      ensures outcome == Completed ==> CycleDone(Pass(cfg, now, w), before, old(disk), disk, m0, metrics)
      ensures outcome == Cancelled ==>
                && visited <= Visible(old(disk).objects) && Through2(Pass(cfg, now, w), old(disk), disk, visited)
                && metrics == Unfinished(AddTallies(old(metrics), visited, Doing2(Pass(cfg, now, w), old(disk))), Cancelled,
                                         polls + Tally(visited, Marking(Pass(cfg, now, w), old(disk)), true))
    {
      ghost var pass, between := Pass(cfg, now, w), disk;
      ghost var exact := EntriesExact(pass, before);
      StaysDisjoint(pass, before, between);
      var done, marked, entries, bytes, seen;
      done, marked, entries, bytes, seen, visited := ScanObjects(now, w, polls, entries0, bytes0, exact);
      if !done {
        metrics := Unfinished(metrics, Cancelled, polls + seen);
        outcome := Cancelled;
        return;
      }
      Publish(now, w, polls + seen, marked, entries, bytes, before, between, m0);
      outcome := Completed;
    }

    /** The last lines of a cycle: the gauges are set. */
    method Publish(now: Time, w: World, candidates: nat, marked: int, entries: int, bytes: int,
                   ghost before: Disk, ghost between: Disk, ghost m0: Metrics)
      requires cfg.Valid()
      requires Phase1Done(Pass(cfg, now, w), before, between) && Phase2Done(Pass(cfg, now, w), between, disk)
      requires metrics == AddTallies(AddTallies(m0, Listed1(Pass(cfg, now, w), before), Doing1(Pass(cfg, now, w), before)),
                                     Visible(between.objects), Doing2(Pass(cfg, now, w), between))
      requires MarkedSo(Pass(cfg, now, w), between, Visible(between.objects),
                        candidates - |Listed1(Pass(cfg, now, w), before)|, marked)
      requires EntriesExact(Pass(cfg, now, w), before) ==> GaugesExact(disk.quarantine, entries, bytes)
      modifies this`metrics
      ensures CycleDone(Pass(cfg, now, w), before, between, disk, m0, metrics)
    {
      ghost var pass := Pass(cfg, now, w);
      ReportNow(pass, before, between, m0, metrics, marked, entries, bytes, candidates - |Listed1(pass, before)|);
      metrics := Published(metrics, marked, entries, bytes, candidates);
      CycleFacts(pass, before, between, disk, m0, entries, bytes);
    }
  }

  lemma StoppedIn1(p: Pass, before: Disk, d: Disk, m0: Metrics, outcome: Outcome, seen1: set<Name>)
    requires Through1(p, before, d, seen1) && seen1 <= Listed1(p, before)
    ensures Stopped(p, before, d, d, m0, Unfinished(AddTallies(m0, seen1, Doing1(p, before)), outcome, |seen1|), outcome, seen1, {})
  {
    NoTallies(AddTallies(m0, seen1, Doing1(p, before)), Doing2(p, d));
    assert Tally({}, Marking(p, d), true) == 0;
  }

  lemma StoppedIn2(p: Pass, before: Disk, between: Disk, d: Disk, m0: Metrics, m1: Metrics, seen2: set<Name>)
    requires Phase1Done(p, before, between) && Through2(p, between, d, seen2) && seen2 <= Visible(between.objects)
    requires m1 == AddTallies(m0, Listed1(p, before), Doing1(p, before))
    ensures Stopped(p, before, between, d, m0,
                    Unfinished(AddTallies(m1, seen2, Doing2(p, between)), Cancelled,
                               |Listed1(p, before)| + Tally(seen2, Marking(p, between), true)),
                    Cancelled, Listed1(p, before), seen2)
  {
    Phase1DoneIsThrough(p, before, between);
  }

  lemma Phase1DoneIsThrough(p: Pass, before: Disk, between: Disk)
    requires Phase1Done(p, before, between)
    ensures Through1(p, before, between, Listed1(p, before))
  {
    forall n | n !in Listed1(p, before)
      ensures p.After1(n, before.At(n)) == before.At(n)
    {
    }
  }

  lemma ReportNow(p: Pass, before: Disk, between: Disk, m0: Metrics, m: Metrics, marked: int, entries: int, bytes: int,
                  seen: nat)
    requires m == AddTallies(AddTallies(m0, Listed1(p, before), Doing1(p, before)), Visible(between.objects), Doing2(p, between))
    requires MarkedSo(p, between, Visible(between.objects), seen, marked)
    ensures Published(m, marked, entries, bytes, |Listed1(p, before)| + seen) == Report(p, before, between, m0, entries, bytes)
  {
  }

  // ----- the counters, from the disks and the answers alone -----

  /** The cycle asks about a live root: reclaimable in the cache for the retention, and its file, if read, as old. */
  ghost predicate Asked(p: Pass, d: Disk, n: Name) {
    && n in d.objects && n in d.coverage && !p.w.io(n).readCov && d.coverage[n].answer.reclaimable
    && d.coverage[n].firstSeenReclaimable.Some?
    && p.now - d.coverage[n].firstSeenReclaimable.value >= p.cfg.retention
    && (p.w.io(n).readMtime || p.now - d.objects[n].mtime >= p.cfg.retention)
  }

  /** Listed in quarantine/ before, and back in objects/. */
  ghost function Recovered(p: Pass, before: Disk, between: Disk): set<Name> {
    set n | n in Listed1(p, before) && n in between.objects && n !in between.quarantine
  }

  /** Listed in quarantine/ before, and in neither directory. */
  ghost function Gone(p: Pass, before: Disk, between: Disk): set<Name> {
    set n | n in Listed1(p, before) && n !in between.objects && n !in between.quarantine
  }

  /** Live before phase 2, and in quarantine/ after it with the stamp. */
  ghost function Entered(p: Pass, between: Disk, after: Disk): set<Name> {
    set n | n in Visible(between.objects) && n in after.quarantine && !p.w.io(n).stamp
  }

  /** How many rechecks of a cycle failed with this label. */
  ghost function Failures(p: Pass, before: Disk, between: Disk, reason: string): nat {
    |(set n | n in Listed1(p, before) && p.w.inQuar(n) == Unusable(reason))|
    + |(set n | n in Visible(between.objects) && Asked(p, between, n) && p.w.inObjects(n) == Unusable(reason))|
  }

  /**
   * Every counter is a number of roots: recovered are those that left quarantine/ for objects/, unlinked
   * those that left it for nowhere, quarantined those that entered it stamped; a failed recheck is counted
   * under its own label; candidates are the listed quarantine entries and the marked live roots.
   */
  ghost predicate CountersTrue(p: Pass, before: Disk, between: Disk, after: Disk, m0: Metrics, m: Metrics) {
    && m.recovered == m0.recovered + |Recovered(p, before, between)|
    && m.unlinked == m0.unlinked + |Gone(p, before, between)|
    && m.quarantined == m0.quarantined + |Entered(p, between, after)|
    && m.recheckNetwork == m0.recheckNetwork + Failures(p, before, between, "network")
    && m.recheckTimeout == m0.recheckTimeout + Failures(p, before, between, "timeout")
    && m.recheck5xx == m0.recheck5xx + Failures(p, before, between, "5xx")
    && m.recheckParse == m0.recheckParse + Failures(p, before, between, "parse")
    && m.candidatesSeen == m0.candidatesSeen + |Listed1(p, before)|
         + |(set n | n in Visible(between.objects) && n in between.coverage && !p.w.io(n).readCov && between.coverage[n].answer.reclaimable)|
    && m.sweepsOK == m0.sweepsOK + 1 && m.sweepsError == m0.sweepsError
  }

  lemma HappeningIs1(p: Pass, n: Name, s: Slot)
    requires IsHexName(n) && s.quar.Some? && !p.w.io(n).info && Disjoint(s)
    ensures p.Did1(n, s) == DidRecover <==> p.After1(n, s).live.Some? && p.After1(n, s).quar.None?
    ensures p.Did1(n, s) == DidUnlink <==> p.After1(n, s).live.None? && p.After1(n, s).quar.None?
    ensures forall reason :: p.Did1(n, s) == DidFail(reason) <==> p.w.inQuar(n) == Unusable(reason)
    ensures p.Did1(n, s) != DidQuarantine
  {
  }

  lemma HappeningIs2(p: Pass, n: Name, s: Slot)
    requires IsHexName(n) && s.live.Some? && Disjoint(s)
    ensures p.Did2(n, s) == DidQuarantine <==> p.After2(n, s).quar.Some? && !p.w.io(n).stamp
    ensures forall reason :: p.Did2(n, s) == DidFail(reason) <==> Due(p.cfg, p.now, s, p.w.io(n)) && p.w.inObjects(n) == Unusable(reason)
    ensures p.Did2(n, s) != DidRecover && p.Did2(n, s) != DidUnlink
  {
  }

  lemma DueIsAsked(p: Pass, d: Disk, n: Name)
    requires p.cfg.Valid() && n in d.objects
    ensures Due(p.cfg, p.now, d.At(n), p.w.io(n)) <==> Asked(p, d, n)
  {
  }

  lemma LeaversCounted(p: Pass, before: Disk, between: Disk)
    requires AllDisjoint(before) && Phase1Done(p, before, between)
    ensures Tally(Listed1(p, before), Doing1(p, before), DidRecover) == |Recovered(p, before, between)|
    ensures Tally(Listed1(p, before), Doing1(p, before), DidUnlink) == |Gone(p, before, between)|
  {
    forall n | n in Listed1(p, before)
      ensures Doing1(p, before)(n) == DidRecover <==> n in Recovered(p, before, between)
      ensures Doing1(p, before)(n) == DidUnlink <==> n in Gone(p, before, between)
    {
      HappeningIs1(p, n, before.At(n));
      assert between.At(n) == p.After1(n, before.At(n));
      PresentAt(between, n);
    }
    TallyIs(Listed1(p, before), Doing1(p, before), DidRecover, Recovered(p, before, between));
    TallyIs(Listed1(p, before), Doing1(p, before), DidUnlink, Gone(p, before, between));
  }

  lemma PresentAt(d: Disk, n: Name)
    ensures n in d.objects <==> d.At(n).live.Some?
    ensures n in d.quarantine <==> d.At(n).quar.Some?
  {
  }

  lemma EnteredCounted(p: Pass, between: Disk, after: Disk)
    requires AllDisjoint(between) && Phase2Done(p, between, after)
    ensures Tally(Visible(between.objects), Doing2(p, between), DidQuarantine) == |Entered(p, between, after)|
  {
    forall n | n in Visible(between.objects)
      ensures Doing2(p, between)(n) == DidQuarantine <==> n in Entered(p, between, after)
    {
      assert Disjoint(between.At(n));
      HappeningIs2(p, n, between.At(n));
      assert after.At(n) == p.After2(n, between.At(n));
      PresentAt(after, n);
    }
    TallyIs(Visible(between.objects), Doing2(p, between), DidQuarantine, Entered(p, between, after));
  }

  /** Each kind of move is counted in one phase only. */
  lemma OnePhaseEach(p: Pass, before: Disk, between: Disk)
    requires AllDisjoint(before) && AllDisjoint(between)
    ensures Tally(Listed1(p, before), Doing1(p, before), DidQuarantine) == 0
    ensures Tally(Visible(between.objects), Doing2(p, between), DidRecover) == 0
    ensures Tally(Visible(between.objects), Doing2(p, between), DidUnlink) == 0
  {
    forall n | n in Listed1(p, before)
      ensures Doing1(p, before)(n) != DidQuarantine
    {
      HappeningIs1(p, n, before.At(n));
    }
    forall n | n in Visible(between.objects)
      ensures Doing2(p, between)(n) != DidRecover && Doing2(p, between)(n) != DidUnlink
    {
      HappeningIs2(p, n, between.At(n));
    }
    TallyIs(Listed1(p, before), Doing1(p, before), DidQuarantine, {});
    TallyIs(Visible(between.objects), Doing2(p, between), DidRecover, {});
    TallyIs(Visible(between.objects), Doing2(p, between), DidUnlink, {});
  }

  lemma FailuresCounted(p: Pass, before: Disk, between: Disk, reason: string)
    requires p.cfg.Valid() && AllDisjoint(before) && AllDisjoint(between)
    ensures Tally(Listed1(p, before), Doing1(p, before), DidFail(reason))
            + Tally(Visible(between.objects), Doing2(p, between), DidFail(reason)) == Failures(p, before, between, reason)
  {
    forall n | n in Listed1(p, before)
      ensures Doing1(p, before)(n) == DidFail(reason) <==> p.w.inQuar(n) == Unusable(reason)
    {
      HappeningIs1(p, n, before.At(n));
    }
    forall n | n in Visible(between.objects)
      ensures Doing2(p, between)(n) == DidFail(reason) <==> Asked(p, between, n) && p.w.inObjects(n) == Unusable(reason)
    {
      HappeningIs2(p, n, between.At(n));
      DueIsAsked(p, between, n);
    }
    TallyIs(Listed1(p, before), Doing1(p, before), DidFail(reason),
            set n | n in Listed1(p, before) && p.w.inQuar(n) == Unusable(reason));
    TallyIs(Visible(between.objects), Doing2(p, between), DidFail(reason),
            set n | n in Visible(between.objects) && Asked(p, between, n) && p.w.inObjects(n) == Unusable(reason));
  }

  lemma CandidatesCounted(p: Pass, between: Disk)
    ensures Tally(Visible(between.objects), Marking(p, between), true)
            == |(set n | n in Visible(between.objects) && n in between.coverage && !p.w.io(n).readCov
                        && between.coverage[n].answer.reclaimable)|
  {
    TallyIs(Visible(between.objects), Marking(p, between), true,
            set n | n in Visible(between.objects) && n in between.coverage && !p.w.io(n).readCov
                    && between.coverage[n].answer.reclaimable);
  }

  lemma CountersAreTrue(p: Pass, before: Disk, between: Disk, after: Disk, m0: Metrics, entries: int, bytes: int)
    requires p.cfg.Valid() && AllDisjoint(before) && Phase1Done(p, before, between) && Phase2Done(p, between, after)
    ensures CountersTrue(p, before, between, after, m0, Report(p, before, between, m0, entries, bytes))
  {
    DisjointBetween(p, before, between);
    LeaversCounted(p, before, between);
    EnteredCounted(p, between, after);
    OnePhaseEach(p, before, between);
    FailuresCounted(p, before, between, "network");
    FailuresCounted(p, before, between, "timeout");
    FailuresCounted(p, before, between, "5xx");
    FailuresCounted(p, before, between, "parse");
    CandidatesCounted(p, between);
  }

  /** A cycle that ended early leaves the gauges, and is an error only if a listing failed. */
  lemma GaugesOfStopped(p: Pass, before: Disk, between: Disk, after: Disk, m0: Metrics, m: Metrics, outcome: Outcome,
                        seen1: set<Name>, seen2: set<Name>)
    requires Stopped(p, before, between, after, m0, m, outcome, seen1, seen2)
    ensures m.sweepsOK == m0.sweepsOK && m.sweepsError == m0.sweepsError + if outcome == ListFailed then 1 else 0
    ensures m.gaugeMarked == m0.gaugeMarked && m.gaugeQuarantined == m0.gaugeQuarantined
    ensures m.gaugeQuarantineBytes == m0.gaugeQuarantineBytes
  {
  }

  /** RunOnce's counters after a completed cycle, where no root was in both directories. */
  lemma CountersOfCycle(p: Pass, before: Disk, between: Disk, after: Disk, m0: Metrics, m: Metrics)
    requires p.cfg.Valid() && AllDisjoint(before) && CycleDone(p, before, between, after, m0, m)
    ensures CountersTrue(p, before, between, after, m0, m)
  {
    forall n
      ensures after.At(n) == p.After2(n, between.At(n))
    {
      assert between.At(n) == p.After1(n, before.At(n));
    }
    CountersAreTrue(p, before, between, after, m0, m.gaugeQuarantined, m.gaugeQuarantineBytes);
  }

  lemma DoneIsOnTheWay(p: Pass, before: Disk, after: Disk)
    requires BothDone(p, before, after)
    ensures OnTheWay(p, before, after)
  {
  }

  lemma StoppedIsOnTheWay(p: Pass, before: Disk, between: Disk, after: Disk, seen1: set<Name>, seen2: set<Name>)
    requires Through1(p, before, between, seen1) && Through2(p, between, after, seen2)
    requires seen2 == {} || Phase1Done(p, before, between)
    ensures OnTheWay(p, before, after)
  {
    forall n
      ensures after.At(n) == before.At(n) || after.At(n) == p.After1(n, before.At(n))
              || after.At(n) == p.After2(n, p.After1(n, before.At(n)))
    {
      assert between.At(n) == before.At(n) || between.At(n) == p.After1(n, before.At(n));
    }
  }

  /**
   * A completed cycle. Every root has been through both phases, whatever else is in the directories, and
   * every counter went up by the number of roots it is about. The quarantine gauges are true unless an
   * inode could not be read or an entry could not be stamped, the marked gauge unless a record could
   * not be read or an entry not stamped. Without file errors every root is conserved.
   */
  ghost predicate CycleDone(p: Pass, before: Disk, between: Disk, after: Disk, m0: Metrics, m: Metrics) {
    && Phase1Done(p, before, between)
    && BothDone(p, before, after)
    && m == Report(p, before, between, m0, m.gaugeQuarantined, m.gaugeQuarantineBytes)
    && (EntriesExact(p, before) ==>
          GaugesExact(after.quarantine, m.gaugeQuarantined, m.gaugeQuarantineBytes))
    && (MarksTracked(p) ==> m.gaugeMarked == |MarkedLive(after)|)
    && (AllDisjoint(before) && NoFaults(p) ==>
          AllConserved(p, before, after))
  }

  lemma CycleFacts(p: Pass, before: Disk, between: Disk, after: Disk, m0: Metrics, entries: int, bytes: int)
    requires p.cfg.Valid() && Phase1Done(p, before, between) && Phase2Done(p, between, after)
    requires EntriesExact(p, before) ==> GaugesExact(after.quarantine, entries, bytes)
    ensures CycleDone(p, before, between, after, m0, Report(p, before, between, m0, entries, bytes))
  {
    forall n
      ensures after.At(n) == p.After2(n, p.After1(n, before.At(n)))
    {
      assert between.At(n) == p.After1(n, before.At(n));
    }
    if MarksTracked(p) {
      MarkedGaugeExact(p, between, after);
    }
    if AllDisjoint(before) && NoFaults(p) {
      EveryRootConserved(p, before, after);
    }
  }

  lemma EveryRootConserved(p: Pass, before: Disk, after: Disk)
    requires p.cfg.Valid() && AllDisjoint(before) && NoFaults(p)
    requires BothDone(p, before, after)
    ensures AllConserved(p, before, after)
  {
    forall n | IsHexName(n)
      ensures Conserved(p.cfg, p.now, before.At(n), after.At(n), p.w.inQuar(n))
    {
      CycleConserves(p.cfg, p.now, before.At(n), p.w.inQuar(n), p.w.inObjects(n));
    }
  }

  lemma StaysDisjoint(p: Pass, before: Disk, between: Disk)
    requires Phase1Done(p, before, between)
    ensures EntriesExact(p, before) ==> EntriesExact(p, between) && InodesRead(p)
  {
  }

  lemma DisjointBetween(p: Pass, before: Disk, between: Disk)
    requires Phase1Done(p, before, between) && AllDisjoint(before)
    ensures AllDisjoint(between)
  {
  }

  lemma SameDir(a: Dir, b: Dir)
    requires forall m :: Lookup(a, m) == Lookup(b, m)
    ensures a == b
  {
    forall m
      ensures m in a <==> m in b
      ensures m in a ==> a[m] == b[m]
    {
      assert Lookup(a, m) == Lookup(b, m);
    }
  }

  /** The number and the bytes of the visited entries that are still there. */
  ghost predicate Counted(dir: Dir, visited: set<Name>, count: int, bytes: int) {
    count == |visited * dir.Keys| && bytes == SumBytes(dir, visited * dir.Keys)
  }

  lemma VisitedSome(names: seq<Name>, i: nat, visited: set<Name>, all: set<Name>)
    requires i < |names| && Visits(names, i, visited) && forall n :: n in names <==> n in all
    ensures visited < all
  {
    assert names[i] in all && names[i] !in visited;
  }

  lemma ProperSmaller(a: set<Name>, b: set<Name>)
    requires a < b
    ensures |a| < |b|
  {
    assert b == a + (b - a);
    assert b - a != {};
  }

  lemma VisitedAll(names: seq<Name>, visited: set<Name>, all: set<Name>)
    requires Visits(names, |names|, visited) && forall n :: n in names <==> n in all
    ensures visited == all
  {
  }

  /** With every inode read, the entries still there are all that a listing would show. */
  lemma AllSettled(p: Pass, was: Disk, d: Disk)
    requires Phase1Done(p, was, d)
    requires InodesRead(p)
    ensures Listed1(p, was) * d.quarantine.Keys == Visible(d.quarantine)
  {
    forall n
      ensures n in Listed1(p, was) && n in d.quarantine <==> n in Visible(d.quarantine)
    {
      assert d.At(n) == p.After1(n, was.At(n));
    }
  }

  lemma SameElsewhere(d: Disk, d': Disk, n: Name)
    requires OnlyAt(d, d', n)
    ensures forall m :: m != n ==> Lookup(d'.quarantine, m) == Lookup(d.quarantine, m)
  {
    forall m | m != n
      ensures Lookup(d'.quarantine, m) == Lookup(d.quarantine, m)
    {
      assert d'.At(m) == d.At(m);
    }
  }

  /** One entry more has been visited: it is still there, as it was, or it has left. */
  lemma CountedNext(dir: Dir, dir': Dir, visited: set<Name>, n: Name, count: int, bytes: int)
    requires Counted(dir, visited, count, bytes) && n !in visited && n in dir
    requires (forall m :: m != n ==> Lookup(dir', m) == Lookup(dir, m)) && (n in dir' ==> dir'[n] == dir[n])
    ensures Counted(dir', visited + {n}, if n in dir' then count + 1 else count,
                    if n in dir' then bytes + |dir[n].bytes| else bytes)
  {
    var settled := visited * dir.Keys;
    GaugesAfterEntry(dir, dir', settled, n);
    forall m | m in visited
      ensures m in dir' <==> m in dir
    {
      assert Lookup(dir', m) == Lookup(dir, m);
    }
    assert (visited + {n}) * dir'.Keys == if n in dir' then settled + {n} else settled;
  }

  /** Phase 1 keeps a quarantined file as it is or takes it away. */
  lemma EntryStaysOrLeaves(p: Pass, d: Disk, d': Disk, n: Name)
    requires OnlyAt(d, d', n) && d'.At(n) == p.After1(n, d.At(n)) && n in d.quarantine
    ensures n in d'.quarantine ==> d'.quarantine[n] == d.quarantine[n]
    ensures forall m :: m != n ==> Lookup(d'.quarantine, m) == Lookup(d.quarantine, m)
  {
    SameElsewhere(d, d', n);
    assert Lookup(d'.quarantine, n) == d'.At(n).quar;
    assert d'.At(n).quar == None || d'.At(n).quar == d.At(n).quar;
  }

  /** A stamped move adds one entry; everything else leaves quarantine/ as it is. */
  lemma GaugesNext(p: Pass, d: Disk, d': Disk, n: Name)
    requires IsHexName(n) && n in d.objects && Disjoint(d.At(n)) && !p.w.io(n).stamp
    requires OnlyAt(d, d', n) && d'.At(n) == p.After2(n, d.At(n))
    ensures p.Did2(n, d.At(n)) != DidQuarantine ==> d'.quarantine == d.quarantine
    ensures p.Did2(n, d.At(n)) == DidQuarantine ==>
              && |Visible(d'.quarantine)| == |Visible(d.quarantine)| + 1
              && SumBytes(d'.quarantine, Visible(d'.quarantine))
                 == SumBytes(d.quarantine, Visible(d.quarantine)) + |d.objects[n].bytes|
  {
    SameElsewhere(d, d', n);
    if p.Did2(n, d.At(n)) == DidQuarantine {
      assert d'.At(n) == Stamped(Renamed(d.At(n)), p.now);
      GaugesAfterMove(d.quarantine, d'.quarantine, n);
    } else {
      assert d'.At(n) == d.At(n);
      SameDir(d'.quarantine, d.quarantine);
    }
  }

  lemma GaugesAfterEntry(before: Dir, after: Dir, settled: set<Name>, n: Name)
    requires settled <= before.Keys && n !in settled && n in before
    requires forall m :: m != n ==> Lookup(after, m) == Lookup(before, m)
    requires n in after ==> after[n] == before[n]
    ensures settled <= after.Keys && SumBytes(after, settled) == SumBytes(before, settled)
    ensures n in after ==> SumBytes(after, settled + {n}) == SumBytes(before, settled) + |before[n].bytes|
  {
    forall m | m in settled
      ensures m in after && after[m] == before[m]
    {
      assert Lookup(after, m) == Lookup(before, m);
    }
    SumBytesFrame(before, after, settled);
    if n in after {
      SumBytesSplit(after, settled + {n}, n);
      assert settled + {n} - {n} == settled;
    }
  }

  lemma GaugesAfterMove(before: Dir, after: Dir, n: Name)
    requires IsHexName(n) && n !in before && n in after
    requires forall m :: m != n ==> Lookup(after, m) == Lookup(before, m)
    ensures |Visible(after)| == |Visible(before)| + 1
    ensures SumBytes(after, Visible(after)) == SumBytes(before, Visible(before)) + |after[n].bytes|
  {
    forall m | m != n
      ensures m in after <==> m in before
      ensures m in after ==> after[m] == before[m]
    {
      assert Lookup(after, m) == Lookup(before, m);
    }
    assert Visible(after) == Visible(before) + {n};
    SumBytesSplit(after, Visible(after), n);
    assert Visible(after) - {n} == Visible(before);
    SumBytesFrame(before, after, Visible(before));
  }
}
