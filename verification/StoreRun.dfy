/**
 * The store under crashes and interleavings: any number of uploads, deletes and quarantine moves,
 * each a sequence of atomic file steps, cut short at any point.
 */
module StoreRun {
  import opened Basics
  import opened Merkle
  import opened MerkleProof
  import opened Coverage
  import opened Store
  import Challenge

  /** An upload in flight: copying, verified against its root, or with its index written. */
  datatype Upload = Copying(root: Name, got: seq<byte>) | Verified(root: Name) | Indexed(root: Name)

  /**
   * `retiring` are the roots whose bytes a delete or a final unlink has removed and whose index it is
   * about to remove, once for every such call under way; `seen` is history: the bytes of every upload that was verified so far.
   */
  datatype Disk = Disk(objects: map<Name, seq<byte>>, quarantine: map<Name, seq<byte>>, index: map<Name, Index>,
                       temps: map<nat, seq<byte>>, uploads: map<nat, Upload>, retiring: multiset<Name>,
                       seen: set<seq<byte>>)

  datatype Event =
    | Start(id: nat, root: Name) | Write(id: nat, p: seq<byte>) | Finish(id: nat) | Abort(id: nat)
    | WriteIndex(id: nat) | Commit(id: nat)
    | Crash | SweepTemp(id: nat)
    | RemoveObject(m: Name) | Quarantine(m: Name) | Restore(m: Name) | Unlink(m: Name) | DropIndex(m: Name)

  const EMPTY := Disk(map[], map[], map[], map[], map[], multiset{}, {})

  /** How bytes are named and indexed; NamingOf(H) is the store's way. The steps use nothing else of it. */
  datatype Naming = Naming(rootOf: seq<byte> -> Name, indexOf: seq<byte> -> Index)

  function RootOf(H: Hashes, data: seq<byte>): Name {
    if data == [] then [] else TreeOf(H, data).value.root
  }

  function NamingOf(H: Hashes): Naming {
    Naming(data => RootOf(H, data), data => IndexOf(H, data, CHUNK_SIZE))
  }

  /** None where the step cannot happen. */
  function Step(N: Naming, d: Disk, ev: Event): Option<Disk> {
    match ev
    case Start(id, root) =>
      if id in d.temps || id in d.uploads then None
      else Some(d.(temps := d.temps[id := []], uploads := d.uploads[id := Copying(root, [])]))
    case Write(id, p) =>
      if id !in d.uploads || id !in d.temps || !d.uploads[id].Copying? then None
      else
        var u := d.uploads[id];
        Some(d.(temps := d.temps[id := d.temps[id] + p], uploads := d.uploads[id := u.(got := u.got + p)]))
    case Finish(id) =>
      if id !in d.uploads || id !in d.temps || !d.uploads[id].Copying? then None
      else
        var u := d.uploads[id];
        if u.got == [] || N.rootOf(u.got) != u.root then Some(d.(temps := d.temps - {id}, uploads := d.uploads - {id}))
        else Some(d.(uploads := d.uploads[id := Verified(u.root)], seen := d.seen + {u.got}))
    case Abort(id) => Some(d.(temps := d.temps - {id}, uploads := d.uploads - {id}))
    case WriteIndex(id) =>
      if id !in d.uploads || id !in d.temps || !d.uploads[id].Verified? then None
      else
        var root := d.uploads[id].root;
        Some(d.(index := d.index[root := N.indexOf(d.temps[id])], uploads := d.uploads[id := Indexed(root)]))
    case Commit(id) =>
      if id !in d.uploads || id !in d.temps || !d.uploads[id].Indexed? then None
      else
        Some(d.(objects := d.objects[d.uploads[id].root := d.temps[id]],
                temps := d.temps - {id}, uploads := d.uploads - {id}))
    case Crash => Some(d.(uploads := map[], retiring := multiset{}))
    case SweepTemp(id) => if id in d.uploads then None else Some(d.(temps := d.temps - {id}))
    case RemoveObject(m) => Some(d.(objects := d.objects - {m}, retiring := d.retiring + multiset{m}))
    case Quarantine(m) =>
      if m !in d.objects then None
      else Some(d.(objects := d.objects - {m}, quarantine := d.quarantine[m := d.objects[m]]))
    case Restore(m) =>
      if m !in d.quarantine then None
      else Some(d.(quarantine := d.quarantine - {m}, objects := d.objects[m := d.quarantine[m]]))
    case Unlink(m) =>
      if m !in d.quarantine then None
      else Some(d.(quarantine := d.quarantine - {m}, retiring := d.retiring + multiset{m}))
    case DropIndex(m) => if m !in d.retiring then None else Some(d.(index := d.index - {m}, retiring := d.retiring - multiset{m}))
  }

  ghost predicate InFlight(d: Disk, m: Name) {
    exists id :: id in d.uploads && d.uploads[id].root == m
  }

  /**
   * What the invariant asks of callers: a root is not uploaded while it is in quarantine or being
   * retired, not deleted while it is in quarantine, and neither deleted nor quarantined during an upload
   * of it. Every one of these conditions is needed, see the end of this module.
   */
  ghost predicate Guarded(d: Disk, ev: Event) {
    match ev
    case Start(_, root) => root !in d.quarantine && root !in d.retiring
    case RemoveObject(m) => !InFlight(d, m) && m !in d.quarantine
    case Quarantine(m) => !InFlight(d, m)
    case _ => true
  }

  function Run(N: Naming, events: seq<Event>): Option<Disk> {
    if events == [] then Some(EMPTY)
    else
      match Run(N, events[..|events| - 1])
      case None => None
      case Some(d) => Step(N, d, events[|events| - 1])
  }

  ghost predicate AllGuarded(N: Naming, events: seq<Event>) {
    events != [] ==>
      && AllGuarded(N, events[..|events| - 1])
      && (Run(N, events[..|events| - 1]).Some? ==>
            Guarded(Run(N, events[..|events| - 1]).value, events[|events| - 1]))
  }

  // ----- the invariant -----

  /** Two different verified uploads had one root. */
  ghost predicate Clash(N: Naming, seen: set<seq<byte>>) {
    exists a, b :: a in seen && b in seen && a != b && N.rootOf(a) == N.rootOf(b)
  }

  /** A clash breaks a hash on strings hashed for the two uploads. */
  lemma ClashBreaksHashes(H: Hashes, seen: set<seq<byte>>) returns (a: seq<byte>, b: seq<byte>)
    requires Clash(NamingOf(H), seen) && [] !in seen
    ensures a in seen && b in seen && a != b && a != [] && b != []
    ensures HashesBroken(H, PieceQueries(Split(a, CHUNK_SIZE)) + PieceQueries(Split(b, CHUNK_SIZE)),
                         NameQueries(H, a, CHUNK_SIZE) + NameQueries(H, b, CHUNK_SIZE))
  {
    var N := NamingOf(H);
    a, b :| a in seen && b in seen && a != b && N.rootOf(a) == N.rootOf(b);
    NameBindsBytes(H, a, b);
  }

  /** The bytes are verified ones whose root is m, and m's index is the index of those bytes. */
  ghost predicate Good(N: Naming, d: Disk, m: Name, bytes: seq<byte>) {
    Known(N, d, m, bytes) && m in d.index && d.index[m] == N.indexOf(bytes)
  }

  ghost predicate Known(N: Naming, d: Disk, m: Name, bytes: seq<byte>) {
    bytes in d.seen && bytes != [] && N.rootOf(bytes) == m
  }

  ghost predicate GoodUpload(N: Naming, d: Disk, id: nat) {
    && id in d.uploads && id in d.temps
    && d.uploads[id].root !in d.quarantine && d.uploads[id].root !in d.retiring
    && match d.uploads[id]
       case Copying(_, got) => d.temps[id] == got
       case Verified(root) => Known(N, d, root, d.temps[id])
       case Indexed(root) => Good(N, d, root, d.temps[id])
  }

  ghost predicate Inv(N: Naming, d: Disk) {
    && [] !in d.seen
    && (forall m :: m in d.objects ==> Good(N, d, m, d.objects[m]))
    && (forall m :: m in d.quarantine ==> Good(N, d, m, d.quarantine[m]) && m !in d.objects)
    && (forall id :: id in d.uploads ==> GoodUpload(N, d, id))
    && (forall m :: m in d.retiring ==> m !in d.objects && m !in d.quarantine)
  }

  lemma SameRootSameBytes(N: Naming, d: Disk, m: Name, a: seq<byte>, b: seq<byte>)
    requires !Clash(N, d.seen) && Known(N, d, m, a) && Known(N, d, m, b)
    ensures a == b
  {
  }

  /** A step that touches one upload and its temp file, and at most adds to the history. */
  ghost predicate TouchesOnly(d: Disk, d': Disk, id: nat) {
    && d'.objects == d.objects && d'.quarantine == d.quarantine && d'.index == d.index && d'.retiring == d.retiring
    && d.seen <= d'.seen
    && (forall k :: k in d'.uploads && k != id ==>
          && k in d.uploads && d'.uploads[k] == d.uploads[k]
          && (k in d.temps ==> k in d'.temps && d'.temps[k] == d.temps[k]))
  }

  lemma TouchInv(N: Naming, d: Disk, d': Disk, id: nat)
    requires Inv(N, d) && TouchesOnly(d, d', id) && [] !in d'.seen
    requires id in d'.uploads ==> GoodUpload(N, d', id)
    ensures Inv(N, d')
  {
    forall k | k in d'.uploads
      ensures GoodUpload(N, d', k)
    {
      assert k != id ==> GoodUpload(N, d, k);
    }
    forall m | m in d'.objects
      ensures Good(N, d', m, d'.objects[m])
    {
      assert Good(N, d, m, d.objects[m]);
    }
    forall m | m in d'.quarantine
      ensures Good(N, d', m, d'.quarantine[m])
    {
      assert Good(N, d, m, d.quarantine[m]);
    }
  }

  lemma UploadInvStep(N: Naming, d: Disk, ev: Event)
    requires Inv(N, d) && Step(N, d, ev).Some? && Guarded(d, ev)
    requires ev.Start? || ev.Write? || ev.Finish? || ev.Abort? || ev.SweepTemp?
    ensures Inv(N, Step(N, d, ev).value)
  {
    assert ev.id in d.uploads ==> GoodUpload(N, d, ev.id);
    TouchInv(N, d, Step(N, d, ev).value, ev.id);
  }

  lemma CrashInvStep(N: Naming, d: Disk)
    requires Inv(N, d)
    ensures Inv(N, Step(N, d, Crash).value)
  {
    var d' := Step(N, d, Crash).value;
    forall m | m in d'.objects
      ensures Good(N, d', m, d'.objects[m])
    {
      assert Good(N, d, m, d.objects[m]);
    }
    forall m | m in d'.quarantine
      ensures Good(N, d', m, d'.quarantine[m])
    {
      assert Good(N, d, m, d.quarantine[m]);
    }
  }

  lemma WriteIndexInvStep(N: Naming, d: Disk, ev: Event)
    requires Inv(N, d) && Step(N, d, ev).Some? && !Clash(N, d.seen) && ev.WriteIndex?
    ensures Inv(N, Step(N, d, ev).value)
  {
    var d' := Step(N, d, ev).value;
    var root, bytes := d.uploads[ev.id].root, d.temps[ev.id];
    forall m | m in d'.objects
      ensures Good(N, d', m, d'.objects[m])
    {
      assert Good(N, d, m, d.objects[m]);
      if m == root {
        SameRootSameBytes(N, d, m, d.objects[m], bytes);
      }
    }
    forall m | m in d'.quarantine
      ensures Good(N, d', m, d'.quarantine[m])
    {
      assert Good(N, d, m, d.quarantine[m]) && GoodUpload(N, d, ev.id);
    }
    forall id | id in d'.uploads
      ensures GoodUpload(N, d', id)
    {
      assert GoodUpload(N, d, id) && GoodUpload(N, d, ev.id);
      if id != ev.id && d.uploads[id].Indexed? && d.uploads[id].root == root {
        SameRootSameBytes(N, d, root, d.temps[id], bytes);
      }
    }
  }

  lemma CommitInvStep(N: Naming, d: Disk, ev: Event)
    requires Inv(N, d) && Step(N, d, ev).Some? && ev.Commit?
    ensures Inv(N, Step(N, d, ev).value)
  {
    assert GoodUpload(N, d, ev.id);
    var d' := Step(N, d, ev).value;
    forall id | id in d'.uploads
      ensures GoodUpload(N, d', id)
    {
      assert GoodUpload(N, d, id);
    }
    forall m | m in d'.objects
      ensures Good(N, d', m, d'.objects[m])
    {
      assert m != d.uploads[ev.id].root ==> Good(N, d, m, d.objects[m]);
    }
  }

  lemma MoveInvStep(N: Naming, d: Disk, ev: Event)
    requires Inv(N, d) && Step(N, d, ev).Some? && Guarded(d, ev)
    requires ev.RemoveObject? || ev.Quarantine? || ev.Restore? || ev.Unlink? || ev.DropIndex?
    ensures Inv(N, Step(N, d, ev).value)
  {
    var d' := Step(N, d, ev).value;
    forall id | id in d'.uploads
      ensures GoodUpload(N, d', id)
    {
      assert GoodUpload(N, d, id);
    }
    forall m | m in d'.objects
      ensures Good(N, d', m, d'.objects[m])
    {
      assert m in d.objects ==> Good(N, d, m, d.objects[m]);
      assert m in d.quarantine ==> Good(N, d, m, d.quarantine[m]);
    }
    forall m | m in d'.quarantine
      ensures Good(N, d', m, d'.quarantine[m]) && m !in d'.objects
    {
      assert m in d.objects ==> Good(N, d, m, d.objects[m]);
      assert m in d.quarantine ==> Good(N, d, m, d.quarantine[m]);
    }
  }

  lemma InvStep(N: Naming, d: Disk, ev: Event)
    requires Inv(N, d) && Step(N, d, ev).Some? && Guarded(d, ev) && !Clash(N, Step(N, d, ev).value.seen)
    ensures Inv(N, Step(N, d, ev).value)
  {
    match ev {
      case Crash => CrashInvStep(N, d);
      case WriteIndex(_) => WriteIndexInvStep(N, d, ev);
      case Commit(_) => CommitInvStep(N, d, ev);
      case RemoveObject(_) => MoveInvStep(N, d, ev);
      case Quarantine(_) => MoveInvStep(N, d, ev);
      case Restore(_) => MoveInvStep(N, d, ev);
      case Unlink(_) => MoveInvStep(N, d, ev);
      case DropIndex(_) => MoveInvStep(N, d, ev);
      case _ => UploadInvStep(N, d, ev);
    }
  }

  /** History only grows. */
  lemma SeenGrows(N: Naming, d: Disk, ev: Event)
    requires Step(N, d, ev).Some?
    ensures d.seen <= Step(N, d, ev).value.seen
  {
  }

  /**
   * The crash and interleaving invariant: in any guarded run every object, live or quarantined, has
   * the bytes its name says and the index of exactly those bytes, unless two of the run's own uploads
   * clash (and then a hash is broken, see ClashBreaksHashes).
   */
  lemma {:induction false} RunInv(N: Naming, events: seq<Event>)
    requires Run(N, events).Some? && AllGuarded(N, events)
    ensures Clash(N, Run(N, events).value.seen) || Inv(N, Run(N, events).value)
  {
    if events != [] {
      var before, ev := events[..|events| - 1], events[|events| - 1];
      RunInv(N, before);
      var d := Run(N, before).value;
      SeenGrows(N, d, ev);
      if !Clash(N, Run(N, events).value.seen) {
        InvStep(N, d, ev);
      }
    }
  }

  lemma SeenStep(N: Naming, d: Disk, ev: Event)
    requires [] !in d.seen && Step(N, d, ev).Some?
    ensures [] !in Step(N, d, ev).value.seen
  {
  }

  lemma {:induction false} SeenAreNonEmpty(N: Naming, events: seq<Event>)
    requires Run(N, events).Some?
    ensures [] !in Run(N, events).value.seen
  {
    if events != [] {
      var before, ev := events[..|events| - 1], events[|events| - 1];
      SeenAreNonEmpty(N, before);
      SeenStep(N, Run(N, before).value, ev);
    }
  }

  /** The same for the store's own naming, with the broken hash in hand. */
  lemma StoreKeepsItsNames(H: Hashes, events: seq<Event>) returns (a: seq<byte>, b: seq<byte>)
    requires Run(NamingOf(H), events).Some? && AllGuarded(NamingOf(H), events)
    ensures var d := Run(NamingOf(H), events).value;
            || Inv(NamingOf(H), d)
            || (&& a in d.seen && b in d.seen && a != b && a != [] && b != []
                && HashesBroken(H, PieceQueries(Split(a, CHUNK_SIZE)) + PieceQueries(Split(b, CHUNK_SIZE)),
                                NameQueries(H, a, CHUNK_SIZE) + NameQueries(H, b, CHUNK_SIZE)))
  {
    var N := NamingOf(H);
    RunInv(N, events);
    SeenAreNonEmpty(N, events);
    a, b := [], [];
    if Clash(N, Run(N, events).value.seen) {
      a, b := ClashBreaksHashes(H, Run(N, events).value.seen);
    }
  }

  function HeldBytes(d: Disk, m: Name): Option<seq<byte>> {
    if m in d.objects then Some(d.objects[m])
    else if m in d.quarantine then Some(d.quarantine[m])
    else None
  }

  /** No step, a re-upload included, ever changes the bytes held under a name. */
  lemma BytesNeverChange(N: Naming, events: seq<Event>, ev: Event, m: Name)
    requires Run(N, events).Some? && Run(N, events + [ev]).Some? && AllGuarded(N, events + [ev])
    requires HeldBytes(Run(N, events).value, m).Some? && HeldBytes(Run(N, events + [ev]).value, m).Some?
    ensures Clash(N, Run(N, events + [ev]).value.seen) ||
            HeldBytes(Run(N, events + [ev]).value, m) == HeldBytes(Run(N, events).value, m)
  {
    assert (events + [ev])[..|events|] == events;
    var d, d' := Run(N, events).value, Run(N, events + [ev]).value;
    SeenGrows(N, d, ev);
    if !Clash(N, d'.seen) {
      RunInv(N, events);
      RunInv(N, events + [ev]);
      if ev.Commit? {
        assert GoodUpload(N, d, ev.id);
      }
      var old', new' := HeldBytes(d, m).value, HeldBytes(d', m).value;
      assert Known(N, d, m, old') by {
        assert m in d.objects ==> Good(N, d, m, d.objects[m]);
        assert m in d.quarantine ==> Good(N, d, m, d.quarantine[m]);
      }
      assert Known(N, d', m, new') by {
        assert m in d'.objects ==> Good(N, d', m, d'.objects[m]);
        assert m in d'.quarantine ==> Good(N, d', m, d'.quarantine[m]);
      }
      SameRootSameBytes(N, d', m, old', new');
    }
  }

  /** So every live object is what the challenge handler needs to answer rightly. */
  lemma EveryObjectAnswersChallenges(H: Hashes, events: seq<Event>, m: Name)
    requires Run(NamingOf(H), events).Some? && AllGuarded(NamingOf(H), events)
    requires m in Run(NamingOf(H), events).value.objects
    ensures var d := Run(NamingOf(H), events).value;
            || Clash(NamingOf(H), d.seen)
            || (&& m in d.index && Challenge.Holds(H, Some(d.index[m]), Some(d.objects[m]))
                && d.index[m].chunkSize == CHUNK_SIZE && m == TreeOf(H, d.objects[m]).value.root)
  {
    RunInv(NamingOf(H), events);
    var d := Run(NamingOf(H), events).value;
    if !Clash(NamingOf(H), d.seen) {
      assert Good(NamingOf(H), d, m, d.objects[m]);
    }
  }

  // ----- runs -----

  lemma Extend(N: Naming, events: seq<Event>, d: Disk, ev: Event) returns (events': seq<Event>, d': Disk)
    requires Run(N, events) == Some(d) && Step(N, d, ev).Some?
    ensures events' == events + [ev] && Step(N, d, ev) == Some(d') && Run(N, events') == Some(d')
  {
    events', d' := events + [ev], Step(N, d, ev).value;
    assert events'[..|events|] == events;
  }

  /** The disk when upload id has taken in `data`. */
  function Taken(d: Disk, id: nat, data: seq<byte>): Disk
    requires id in d.uploads
  {
    d.(temps := d.temps[id := data], uploads := d.uploads[id := Copying(d.uploads[id].root, data)])
  }

  lemma TakenAgain(d: Disk, id: nat, a: seq<byte>, b: seq<byte>)
    requires id in d.uploads
    ensures Taken(Taken(d, id, a), id, b) == Taken(d, id, b)
  {
    var u := d.uploads[id].root;
    assert d.temps[id := a][id := b] == d.temps[id := b];
    assert d.uploads[id := Copying(u, a)][id := Copying(u, b)] == d.uploads[id := Copying(u, b)];
  }

  lemma WriteTakes(N: Naming, d: Disk, id: nat, got: seq<byte>, p: seq<byte>)
    requires id in d.uploads && d.uploads[id].Copying?
    ensures Step(N, Taken(d, id, got), Write(id, p)) == Some(Taken(d, id, got + p))
  {
    TakenAgain(d, id, got, got + p);
  }

  lemma TakenSame(d: Disk, id: nat)
    requires id in d.uploads && id in d.temps && d.uploads[id].Copying? && d.temps[id] == d.uploads[id].got
    ensures Taken(d, id, d.temps[id]) == d
  {
    assert d.temps[id := d.temps[id]] == d.temps;
    assert d.uploads[id := Copying(d.uploads[id].root, d.temps[id])] == d.uploads;
  }

  /** The copy loop of one upload, part by part. */
  lemma {:induction false} CopyRun(N: Naming, events: seq<Event>, d: Disk, id: nat, got: seq<byte>, parts: seq<seq<byte>>)
      returns (events': seq<Event>)
    requires id in d.uploads && d.uploads[id].Copying? && Run(N, events) == Some(Taken(d, id, got))
    ensures Run(N, events') == Some(Taken(d, id, got + Flatten(parts)))
    decreases |parts|
  {
    if parts == [] {
      events' := events;
      assert got + Flatten(parts) == got;
    } else {
      WriteTakes(N, d, id, got, parts[0]);
      var d';
      events', d' := Extend(N, events, Taken(d, id, got), Write(id, parts[0]));
      events' := CopyRun(N, events', d, id, got + parts[0], parts[1..]);
      ConcatAssociates(got, parts[0], Flatten(parts[1..]));
    }
  }

  lemma CommitRun(N: Naming, events: seq<Event>, d: Disk, id: nat) returns (events': seq<Event>, d': Disk)
    requires Run(N, events) == Some(d) && id in d.uploads && id in d.temps
    requires d.uploads[id].Copying? && d.temps[id] == d.uploads[id].got != []
    requires N.rootOf(d.temps[id]) == d.uploads[id].root
    ensures Run(N, events') == Some(d')
    ensures var root, data := d.uploads[id].root, d.temps[id];
            d' == d.(objects := d.objects[root := data], index := d.index[root := N.indexOf(data)],
                     temps := d.temps - {id}, uploads := d.uploads - {id}, seen := d.seen + {data})
  {
    events', d' := Extend(N, events, d, Finish(id));
    events', d' := Extend(N, events', d', WriteIndex(id));
    events', d' := Extend(N, events', d', Commit(id));
    assert d'.uploads == d.uploads - {id};
  }

  lemma PutTwiceAndRemove<V>(m: map<nat, V>, id: nat, a: V, b: V)
    requires id !in m
    ensures m[id := a][id := b] - {id} == m
  {
  }

  /**
   * One upload from start to commit with nothing in between ends where PutStream's contract says:
   * the bytes under their root, their index, no trace of the temp file.
   */
  lemma UploadRun(N: Naming, events: seq<Event>, d: Disk, id: nat, parts: seq<seq<byte>>)
      returns (events': seq<Event>, d': Disk)
    requires Run(N, events) == Some(d) && id !in d.temps && id !in d.uploads && Flatten(parts) != []
    ensures Run(N, events') == Some(d')
    ensures var data := Flatten(parts);
            d' == d.(objects := d.objects[N.rootOf(data) := data], seen := d.seen + {data},
                     index := d.index[N.rootOf(data) := N.indexOf(data)])
  {
    var data := Flatten(parts);
    var started;
    events', started := Extend(N, events, d, Start(id, N.rootOf(data)));
    TakenSame(started, id);
    events' := CopyRun(N, events', started, id, [], parts);
    assert [] + data == data;
    d' := Taken(started, id, data);
    events', d' := CommitRun(N, events', d', id);
    PutTwiceAndRemove(d.temps, id, [], Flatten(parts));
    PutTwiceAndRemove(d.uploads, id, Copying(N.rootOf(Flatten(parts)), []), Copying(N.rootOf(Flatten(parts)), Flatten(parts)));
  }

  // ----- the guard is needed, condition by condition -----

  /** A live object that no challenge can be answered for. */
  predicate Unanswerable(d: Disk, m: Name) {
    m in d.objects && m !in d.index
  }

  /**
   * Uploading a root that is in quarantine: the collector's final unlink drops the index without
   * looking at objects/.
   */
  lemma UploadWhileQuarantinedLosesIndex(N: Naming, events: seq<Event>, d: Disk, id: nat, data: seq<byte>)
      returns (events': seq<Event>, d': Disk)
    requires Run(N, events) == Some(d) && N.rootOf(data) in d.quarantine
    requires data != [] && id !in d.temps && id !in d.uploads
    ensures Run(N, events') == Some(d') && Unanswerable(d', N.rootOf(data))
  {
    events', d' := UploadInOnePart(N, events, d, id, data);
    events', d' := Extend(N, events', d', Unlink(N.rootOf(data)));
    events', d' := Extend(N, events', d', DropIndex(N.rootOf(data)));
  }

  /** Uploading a root whose bytes a delete or unlink has removed and whose index it is about to remove. */
  lemma UploadWhileRetiringLosesIndex(N: Naming, events: seq<Event>, d: Disk, id: nat, data: seq<byte>)
      returns (events': seq<Event>, d': Disk)
    requires Run(N, events) == Some(d) && N.rootOf(data) in d.retiring
    requires data != [] && id !in d.temps && id !in d.uploads
    ensures Run(N, events') == Some(d') && Unanswerable(d', N.rootOf(data))
  {
    events', d' := UploadInOnePart(N, events, d, id, data);
    events', d' := Extend(N, events', d', DropIndex(N.rootOf(data)));
  }

  lemma UploadInOnePart(N: Naming, events: seq<Event>, d: Disk, id: nat, data: seq<byte>)
      returns (events': seq<Event>, d': Disk)
    requires Run(N, events) == Some(d) && data != [] && id !in d.temps && id !in d.uploads
    ensures Run(N, events') == Some(d')
    ensures N.rootOf(data) in d'.objects && d'.quarantine == d.quarantine && d'.retiring == d.retiring
  {
    assert Flatten([data]) == data + Flatten([]) == data;
    events', d' := UploadRun(N, events, d, id, [data]);
  }

  /**
   * Deleting a root that is in quarantine: the delete drops its index and leaves the quarantined bytes,
   * and a restore brings them back without it.
   */
  lemma DeleteWhileQuarantinedLosesIndex(N: Naming, events: seq<Event>, d: Disk, m: Name)
      returns (events': seq<Event>, d': Disk)
    requires Run(N, events) == Some(d) && m in d.quarantine
    ensures Run(N, events') == Some(d') && Unanswerable(d', m)
  {
    events', d' := Extend(N, events, d, RemoveObject(m));
    events', d' := Extend(N, events', d', DropIndex(m));
    events', d' := Extend(N, events', d', Restore(m));
  }

  /** An upload in flight that can still go through, with what is left of its data. */
  ghost predicate Completable(N: Naming, d: Disk, id: nat, rest: seq<byte>) {
    && id in d.uploads && id in d.temps
    && (d.uploads[id].Copying? ==>
          d.uploads[id].got + rest != [] && N.rootOf(d.uploads[id].got + rest) == d.uploads[id].root)
  }

  /** It goes on to where only the rename is left. */
  lemma ToIndexed(N: Naming, events: seq<Event>, d: Disk, id: nat, rest: seq<byte>)
      returns (events': seq<Event>, d': Disk)
    requires Run(N, events) == Some(d) && Completable(N, d, id, rest)
    ensures Run(N, events') == Some(d') && id in d'.uploads && id in d'.temps && d'.uploads[id] == Indexed(d.uploads[id].root)
    ensures d'.objects == d.objects && d'.quarantine == d.quarantine && d'.retiring == d.retiring
  {
    events', d' := events, d;
    if d'.uploads[id].Copying? {
      events', d' := Extend(N, events', d', Write(id, rest));
      events', d' := Extend(N, events', d', Finish(id));
    }
    if d'.uploads[id].Verified? {
      events', d' := Extend(N, events', d', WriteIndex(id));
    }
  }

  /** Deleting a root during any upload of it that can still go through. */
  lemma DeleteDuringUploadLosesIndex(N: Naming, events: seq<Event>, d: Disk, id: nat, rest: seq<byte>)
      returns (events': seq<Event>, d': Disk)
    requires Run(N, events) == Some(d) && Completable(N, d, id, rest)
    ensures Run(N, events') == Some(d') && Unanswerable(d', d.uploads[id].root)
  {
    var m := d.uploads[id].root;
    events', d' := Extend(N, events, d, RemoveObject(m));
    events', d' := ToIndexed(N, events', d', id, rest);
    events', d' := Extend(N, events', d', DropIndex(m));
    events', d' := Extend(N, events', d', Commit(id));
  }

  /** Quarantining a live root during any second upload of it that can still go through. */
  lemma QuarantineDuringUploadLosesIndex(N: Naming, events: seq<Event>, d: Disk, id: nat, rest: seq<byte>)
      returns (events': seq<Event>, d': Disk)
    requires Run(N, events) == Some(d) && Completable(N, d, id, rest) && d.uploads[id].root in d.objects
    ensures Run(N, events') == Some(d') && Unanswerable(d', d.uploads[id].root)
  {
    var m := d.uploads[id].root;
    events', d' := Extend(N, events, d, Quarantine(m));
    events', d' := ToIndexed(N, events', d', id, rest);
    events', d' := CommitAndUnlink(N, events', d', id);
  }

  lemma CommitAndUnlink(N: Naming, events: seq<Event>, d: Disk, id: nat)
      returns (events': seq<Event>, d': Disk)
    requires Run(N, events) == Some(d) && id in d.uploads && id in d.temps && d.uploads[id].Indexed?
    requires d.uploads[id].root in d.quarantine
    ensures Run(N, events') == Some(d') && Unanswerable(d', d.uploads[id].root)
  {
    events', d' := Extend(N, events, d, Commit(id));
    events', d' := Extend(N, events', d', Unlink(d.uploads[id].root));
    events', d' := Extend(N, events', d', DropIndex(d.uploads[id].root));
  }
}
