/** The object store on disk (store/store.go, store/stream.go): one call at a time, with file errors. */
module Store {
  import opened Basics
  import opened Merkle
  import opened Coverage
  import opened TreeBuilder

  datatype Ownership = Ownership(ownerPubkey: Text, ownerSigPubkey: Text, receivedAt: Time)

  /** Which file operations of one PutStream fail; copyStops is how many reads succeed before an error. */
  datatype PutFaults = PutFaults(create: bool, copyStops: Option<nat>, sync: bool, close: bool, writeIndex: bool,
                                 rename: bool, cleanup: bool)

  const NO_PUT_FAULTS := PutFaults(false, None, false, false, false, false, false)

  datatype PutError = CreateFailed | CopyFailed | MerkleFailed(e: MerkleError) | MerkleMismatch
                    | SyncFailed | CloseFailed | IndexFailed | RenameFailed

  datatype OwnershipError = Incomplete | AlreadyOwned | WriteFailed | ChmodFailed

  /** Which removals of a delete fail. */
  datatype DeleteFaults = DeleteFaults(bytes: bool, index: bool, ownership: bool, coverage: bool)

  /** The map after n was removed, unless that failed. */
  function Without<T>(m: map<Name, T>, n: Name, fails: bool): (r: map<Name, T>)
    ensures n in r <==> n in m && fails
    ensures forall k :: k != n ==> (k in r <==> k in m) && (k in r ==> r[k] == m[k])
  {
    if fails then m else m - {n}
  }

  /** The parts the copy loop gets through before a read or write error. */
  function Copied(parts: seq<seq<byte>>, f: PutFaults): (copied: seq<seq<byte>>)
    ensures copied <= parts
    ensures copied == parts <==> f.copyStops == None || f.copyStops.value >= |parts|
  {
    if f.copyStops.Some? && f.copyStops.value < |parts| then parts[..f.copyStops.value] else parts
  }

  function SpoolError(H: Hashes, expectedRoot: Name, parts: seq<seq<byte>>, f: PutFaults): (e: Option<PutError>)
    ensures e.None? ==> Copied(parts, f) == parts && Flatten(parts) != []
    ensures e.None? ==> expectedRoot == TreeOf(H, Flatten(parts)).value.root
    ensures e == Some(MerkleMismatch) ==> Flatten(parts) != [] && expectedRoot != TreeOf(H, Flatten(parts)).value.root
  {
    if Copied(parts, f) != parts then Some(CopyFailed)
    else if Flatten(parts) == [] then Some(MerkleFailed(EmptyData))
    else if expectedRoot != TreeOf(H, Flatten(parts)).value.root then Some(MerkleMismatch)
    else None
  }

  /** The first thing to go wrong, if any. */
  function PutVerdict(H: Hashes, expectedRoot: Name, parts: seq<seq<byte>>, f: PutFaults): Option<PutError> {
    if f.create then Some(CreateFailed)
    else if SpoolError(H, expectedRoot, parts, f).Some? then SpoolError(H, expectedRoot, parts, f)
    else if f.sync then Some(SyncFailed)
    else if f.close then Some(CloseFailed)
    else if f.writeIndex then Some(IndexFailed)
    else if f.rename then Some(RenameFailed)
    else None
  }

  lemma PutTwice<V>(m: map<nat, V>, id: nat, a: V, b: V)
    ensures m[id := a][id := b] == m[id := b]
  {
  }

  class Store {
    const H: Hashes
    var objects: map<Name, seq<byte>>
    var temps: map<nat, seq<byte>>   // ".tmp-stream-*" files, which no listing shows
    var index: map<Name, Index>
    var ownership: map<Name, Ownership>
    var coverage: map<Name, Record>

    constructor (H: Hashes)
      ensures this.H == H && objects == map[] && temps == map[] && index == map[] && ownership == map[]
      ensures coverage == map[]
    {
      this.H := H;
      objects, temps, index, ownership, coverage := map[], map[], map[], map[], map[];
    }

    /** One buffer to both writers. */
    method Tee(id: nat, b: TreeBuilder, part: seq<byte>)
      requires id in temps && b.Open()
      modifies this`temps, b, b.chunkHash, b.hexScratch
      ensures b.Open() && (b.chunkHash == old(b.chunkHash) || b.chunkHash == null || fresh(b.chunkHash))
      ensures b.Written() == old(b.Written()) + part && temps == old(temps)[id := old(temps)[id] + part]
    {
      temps := temps[id := temps[id] + part];
      var _ := b.Write(part);
    }

    /** The copy loop: each buffer goes to the temp file and to the tree builder. */
    method Copy(id: nat, b: TreeBuilder, parts: seq<seq<byte>>, f: PutFaults) returns (ok: bool)
      requires id in temps && temps[id] == [] && b.Open() && b.Written() == []
      modifies this`temps, b, b.chunkHash, b.hexScratch
      ensures b.Open() && b.Written() == Flatten(Copied(parts, f))
      ensures temps == old(temps)[id := Flatten(Copied(parts, f))]
      ensures ok <==> Copied(parts, f) == parts
    {
      ghost var got: seq<byte> := [];
      for i := 0 to |parts|
        invariant b.Open() && (b.chunkHash == old(b.chunkHash) || b.chunkHash == null || fresh(b.chunkHash))
        invariant got == Flatten(parts[..i]) && b.Written() == got && temps == old(temps)[id := got]
        invariant f.copyStops.Some? ==> i <= f.copyStops.value
      {
        if f.copyStops == Some(i) {
          return false;
        }
        FlattenNext(parts, i);
        Tee(id, b, parts[i]);
        PutTwice(old(temps), id, got, got + parts[i]);
        got := got + parts[i];
      }
      assert parts[..|parts|] == parts;
      ok := true;
    }

    /** Spool to a fresh temp file while hashing; verified bytes come back as their tree. */
    method Spool(tempId: nat, expectedRoot: Name, parts: seq<seq<byte>>, f: PutFaults) returns (r: Result<Tree, PutError>)
      requires tempId !in temps && !f.create
      modifies this`temps
      ensures temps == old(temps)[tempId := Flatten(Copied(parts, f))]
      ensures r == match SpoolError(H, expectedRoot, parts, f)
                   case Some(e) => Err(e)
                   case None => Ok(TreeOf(H, Flatten(parts)).value)
    {
      temps := temps[tempId := []];
      var tb := new TreeBuilder(H);
      var copied := Copy(tempId, tb, parts, f);
      if !copied {
        return Err(CopyFailed);
      }
      var tree := tb.Finish();
      match tree {
        case Err(e) =>
          return Err(MerkleFailed(e));
        case Ok(t) =>
          if t.root != expectedRoot {
            return Err(MerkleMismatch);
          }
          return Ok(t);
      }
    }

    /**
     * PutStream; the system picks an unused temp name. Success stores exactly the bytes read, under
     * the root they hash to, with their index. Whatever goes wrong, no object changes, and the only
     * traces are an orphan temp file whose removal failed, or the index of verified bytes whose
     * rename failed.
     */
    method PutStream(tempId: nat, expectedRoot: Name, parts: seq<seq<byte>>, f: PutFaults) returns (r: Result<nat, PutError>)
      requires tempId !in temps
      modifies this`objects, this`temps, this`index
      ensures r == match PutVerdict(H, expectedRoot, parts, f)
                   case Some(e) => Err(e)
                   case None => Ok(|Flatten(parts)|)
      ensures r.Ok? <==>
                && !f.create && (f.copyStops == None || f.copyStops.value >= |parts|) && !f.sync && !f.close
                && !f.writeIndex && !f.rename
                && Flatten(parts) != [] && TreeOf(H, Flatten(parts)).value.root == expectedRoot
      ensures match r
              case Ok(size) => size == |Flatten(parts)|
              case Err(CreateFailed) => f.create
              case Err(CopyFailed) => f.copyStops.Some? && f.copyStops.value < |parts|
              case Err(MerkleFailed(e)) => e == EmptyData && Flatten(parts) == []
              case Err(MerkleMismatch) => Flatten(parts) != [] && TreeOf(H, Flatten(parts)).value.root != expectedRoot
              case Err(SyncFailed) => f.sync
              case Err(CloseFailed) => f.close
              case Err(IndexFailed) => f.writeIndex
              case Err(RenameFailed) => f.rename
      ensures r.Ok? ==> Flatten(parts) != [] && expectedRoot == TreeOf(H, Flatten(parts)).value.root
      ensures objects == if r.Ok? then old(objects)[expectedRoot := Flatten(parts)] else old(objects)
      ensures index == if r.Ok? || r == Err(RenameFailed)
                       then old(index)[expectedRoot := IndexOf(H, Flatten(parts), CHUNK_SIZE)] else old(index)
      ensures temps == if r.Err? && !f.create && f.cleanup then old(temps)[tempId := Flatten(Copied(parts, f))]
                       else old(temps)
    {
      if f.create {
        return Err(CreateFailed);
      }
      ghost var before := temps;
      var tree := Spool(tempId, expectedRoot, parts, f);
      if tree.Err? {
        r := Err(tree.error);
      } else if f.sync {
        r := Err(SyncFailed);
      } else if f.close {
        r := Err(CloseFailed);
      } else if f.writeIndex {
        r := Err(IndexFailed);
      } else {
        index := index[expectedRoot := Index(CHUNK_SIZE, |tree.value.chunkHashes|, tree.value.chunkHashes)];
        if f.rename {
          r := Err(RenameFailed);
        } else {
          r := Ok(|temps[tempId]|);
          objects := objects[expectedRoot := temps[tempId]];
          temps := temps - {tempId};
          assert temps == before;
          return;
        }
      }
      if !f.cleanup {
        temps := temps - {tempId};
        assert temps == before;
      }
    }

    /** Put: object first, then index; a non-positive chunk size means the default. */
    method Put(root: Name, data: seq<byte>, chunkSize: int, objectFails: bool, indexFails: bool) returns (ok: bool)
      modifies this`objects, this`index
      ensures ok == (!objectFails && !indexFails)
      ensures objects == if objectFails then old(objects) else old(objects)[root := data]
      ensures index == if ok then old(index)[root := IndexOf(H, data, if chunkSize <= 0 then CHUNK_SIZE else chunkSize)]
                       else old(index)
    {
      var size := if chunkSize <= 0 then CHUNK_SIZE else chunkSize;
      var idx := BuildIndex(H, data, size);
      if objectFails {
        return false;
      }
      objects := objects[root := data];
      if indexFails {
        return false;
      }
      index := index[root := idx];
      return true;
    }

    /** Errors are dropped: what cannot be removed stays, and the call still succeeds. */
    method Delete(root: Name, f: DeleteFaults)
      modifies this`objects, this`index, this`ownership, this`coverage
      ensures root in objects <==> root in old(objects) && f.bytes
      ensures root in index <==> root in old(index) && f.index
      ensures root in ownership <==> root in old(ownership) && f.ownership
      ensures root in coverage <==> root in old(coverage) && f.coverage
      ensures f.bytes ==> objects == old(objects)
      ensures f.index ==> index == old(index)
      ensures f.ownership ==> ownership == old(ownership)
      ensures f.coverage ==> coverage == old(coverage)
      ensures forall m :: m != root ==>
                && Lookup(objects, m) == Lookup(old(objects), m) && Lookup(index, m) == Lookup(old(index), m)
                && Lookup(ownership, m) == Lookup(old(ownership), m) && Lookup(coverage, m) == Lookup(old(coverage), m)
      ensures objects == Without(old(objects), root, f.bytes)
      ensures index == Without(old(index), root, f.index)
      ensures ownership == Without(old(ownership), root, f.ownership)
      ensures coverage == Without(old(coverage), root, f.coverage)
    {
      if !f.bytes {
        objects := objects - {root};
      }
      if !f.index {
        index := index - {root};
      }
      if root in ownership && !f.ownership {
        ownership := ownership - {root};
      }
      if !f.coverage {
        coverage := coverage - {root};
      }
    }

    /** Write-once: an existing record is never replaced. A failed chmod is an error, but the record is there. */
    method PutOwnership(root: Name, own: Ownership, writeFails: bool, chmodFails: bool) returns (r: Option<OwnershipError>)
      modifies this`ownership
      ensures root in old(ownership) ==> ownership == old(ownership)
      ensures r == if own.ownerPubkey == [] || own.ownerSigPubkey == [] then Some(Incomplete)
                   else if root in old(ownership) then Some(AlreadyOwned)
                   else if writeFails then Some(WriteFailed)
                   else if chmodFails then Some(ChmodFailed) else None
      ensures ownership == if r.None? || r == Some(ChmodFailed) then old(ownership)[root := own] else old(ownership)
    {
      if own.ownerPubkey == [] || own.ownerSigPubkey == [] {
        return Some(Incomplete);
      }
      if root in ownership {
        return Some(AlreadyOwned);
      }
      if writeFails {
        return Some(WriteFailed);
      }
      ownership := ownership[root := own];
      if chmodFails {
        return Some(ChmodFailed);
      }
      return None;
    }
  }
}
