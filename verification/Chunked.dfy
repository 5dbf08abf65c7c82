/** Chunked uploads: staging, the staged-chunks reader and finalize (api/chunked.go). */
module Chunked {
  import opened Basics
  import opened Merkle
  import opened Coverage
  import Store

  /** The staging directory of one root: the chunk files and the total in the meta file. */
  datatype Staged = Staged(chunks: map<nat, seq<byte>>, meta: Option<int>)

  const NOTHING := Staged(map[], None)

  datatype Request = Request(index: int, total: int, data: seq<byte>)

  predicate Acceptable(q: Request) {
    q.index >= 0 && q.total > 0 && q.index < q.total && q.data != []
  }

  function AfterChunk(s: Staged, q: Request): Staged {
    if Acceptable(q) then Staged(s.chunks[q.index := q.data], Some(q.total)) else s
  }

  /** How writing a file in place ends; `left` is what a failed write left of it, read back. */
  datatype Written<T> = Whole | Untouched | Torn(left: T)

  /** One request with its two writes; the handler does not look at the second one's error. */
  function AfterWrites(s: Staged, q: Request, chunkWrite: Written<seq<byte>>, metaWrite: Written<int>): (r: Staged)
    ensures chunkWrite.Whole? && metaWrite.Whole? ==> r == AfterChunk(s, q)
  {
    if !Acceptable(q) then s
    else
      match chunkWrite
      case Untouched => s
      case Torn(left) => s.(chunks := s.chunks[q.index := left])
      case Whole =>
        var s' := s.(chunks := s.chunks[q.index := q.data]);
        match metaWrite
        case Untouched => s'
        case Torn(left) => s'.(meta := Some(left))
        case Whole => s'.(meta := Some(q.total))
  }

  function AfterChunks(s: Staged, qs: seq<Request>): Staged {
    if qs == [] then s else AfterChunk(AfterChunks(s, qs[..|qs| - 1]), qs[|qs| - 1])
  }

  predicate AllPresent(s: Staged, total: nat) {
    forall i :: 0 <= i < total ==> i in s.chunks
  }

  /** Chunks from..total in order. */
  function Assembled(s: Staged, from: nat, total: nat): seq<byte>
    requires from <= total && AllPresent(s, total)
    decreases total - from
  {
    if from == total then [] else s.chunks[from] + Assembled(s, from + 1, total)
  }

  // ----- any order, with overwrites -----

  /** Request p is the last one for its index. */
  ghost predicate LastFor(qs: seq<Request>, p: nat)
    requires p < |qs|
  {
    forall k :: p < k < |qs| ==> qs[k].index != qs[p].index
  }

  /** Every part arrives, and nothing else is written over it afterwards; the final request has the right total. */
  ghost predicate Delivers(qs: seq<Request>, parts: seq<seq<byte>>) {
    && qs != [] && parts != []
    && (forall k :: 0 <= k < |qs| ==> 0 <= qs[k].index < qs[k].total && qs[k].data != [])
    && qs[|qs| - 1].total == |parts|
    && forall i :: 0 <= i < |parts| ==> exists p :: Brings(qs, p, i, parts[i])
  }

  /** Request p brings part i for good. */
  ghost predicate Brings(qs: seq<Request>, p: nat, i: nat, part: seq<byte>) {
    p < |qs| && qs[p].index == i && qs[p].data == part && LastFor(qs, p)
  }

  lemma {:induction false} LastWriteWins(s: Staged, qs: seq<Request>, p: nat)
    requires p < |qs| && Acceptable(qs[p]) && LastFor(qs, p)
    ensures qs[p].index in AfterChunks(s, qs).chunks && AfterChunks(s, qs).chunks[qs[p].index] == qs[p].data
    decreases |qs|
  {
    var n := |qs| - 1;
    if p < n {
      LastWriteWins(s, qs[..n], p);
    }
  }

  lemma {:induction false} AssembledIsFlatten(s: Staged, parts: seq<seq<byte>>, from: nat)
    requires from <= |parts| && AllPresent(s, |parts|)
    requires forall i :: 0 <= i < |parts| ==> s.chunks[i] == parts[i]
    ensures Assembled(s, from, |parts|) == Flatten(parts[from..])
    decreases |parts| - from
  {
    if from < |parts| {
      AssembledIsFlatten(s, parts, from + 1);
      assert parts[from..] == [parts[from]] + parts[from + 1..];
    } else {
      assert parts[from..] == [];
    }
  }

  /** However the chunks came in, what is staged is the parts in order. */
  lemma DeliveredIsStaged(s: Staged, qs: seq<Request>, parts: seq<seq<byte>>)
    requires Delivers(qs, parts)
    ensures var after := AfterChunks(s, qs);
            && after.meta == Some(|parts|) && AllPresent(after, |parts|)
            && Assembled(after, 0, |parts|) == Flatten(parts)
  {
    var after := AfterChunks(s, qs);
    forall i | 0 <= i < |parts|
      ensures i in after.chunks && after.chunks[i] == parts[i]
    {
      var p :| Brings(qs, p, i, parts[i]);
      LastWriteWins(s, qs, p);
    }
    AssembledIsFlatten(after, parts, 0);
    assert parts[0..] == parts;
  }

  // ----- the reader -----

  datatype OpenFile = OpenFile(content: seq<byte>, pos: nat)

  datatype ReadResult = Data(p: seq<byte>) | EOF | OpenFailed(index: nat)

  /** One Read of an open file: some of what is left, as much as fits at most. */
  method ReadFile(f: OpenFile, max: nat) returns (p: seq<byte>)
    requires f.pos <= |f.content| && max > 0
    ensures p <= f.content[f.pos..] && |p| <= max
    ensures p == [] <==> f.pos == |f.content|
  {
    if f.pos == |f.content| {
      return [];
    }
    var most := if |f.content| - f.pos < max then |f.content| - f.pos else max;
    var n: nat :| 1 <= n <= most;
    p := f.content[f.pos..f.pos + n];
  }

  class StagedChunksReader {
    const staged: Staged
    const total: nat
    var idx: nat
    var cur: Option<OpenFile>

    ghost predicate Valid()
      reads this
    {
      && idx <= total
      && (cur.Some? ==> cur.value.pos <= |cur.value.content| && idx < total)
    }

    /** What the reader still has to yield, when no chunk file is missing. */
    ghost function Remaining(): seq<byte>
      reads this
      requires Valid() && AllPresent(staged, total)
    {
      Left(staged, total, idx, cur)
    }

    constructor (staged: Staged, total: nat)
      ensures Valid() && this.staged == staged && this.total == total
      ensures AllPresent(staged, total) ==> Remaining() == Assembled(staged, 0, total)
    {
      this.staged, this.total, idx, cur := staged, total, 0, None;
    }

    /** Yields the next non-empty piece that fits, and EOF exactly when nothing is left. */
    method Read(max: nat) returns (r: ReadResult)
      requires Valid() && max > 0
      modifies this
      ensures Valid()
      ensures r.Data? ==> 0 < |r.p| <= max
      ensures AllPresent(staged, total) ==> !r.OpenFailed?
      ensures AllPresent(staged, total) && r.Data? ==> old(Remaining()) == r.p + Remaining()
      ensures AllPresent(staged, total) && r.EOF? ==> old(Remaining()) == Remaining() == []
    {
      ghost var whole := AllPresent(staged, total);
      ghost var left := if whole then Remaining() else [];
      while true
        invariant Valid()
        invariant whole ==> Left(staged, total, idx, cur) == left
        decreases total - idx, if cur.None? then 1 else 0
      {
        if cur.None? {
          if idx >= total {
            return EOF;
          }
          if idx !in staged.chunks {
            return OpenFailed(idx);
          }
          cur := Some(OpenFile(staged.chunks[idx], 0));
        } else {
          var f := cur.value;
          var p := ReadFile(f, max);
          if |p| > 0 {
            if whole {
              LeftAfterRead(staged, total, idx, f, p);
            }
            cur := Some(f.(pos := f.pos + |p|));
            return Data(p);
          }
          cur := None;
          idx := idx + 1;
        }
      }
    }
  }

  /** The rest of the open file, then the chunks after it. */
  ghost function Left(staged: Staged, total: nat, idx: nat, cur: Option<OpenFile>): seq<byte>
    requires idx <= total && AllPresent(staged, total)
    requires cur.Some? ==> cur.value.pos <= |cur.value.content| && idx < total
  {
    if cur.Some? then cur.value.content[cur.value.pos..] + Assembled(staged, idx + 1, total)
    else Assembled(staged, idx, total)
  }

  lemma LeftAfterRead(staged: Staged, total: nat, idx: nat, f: OpenFile, p: seq<byte>)
    requires idx < total && AllPresent(staged, total) && f.pos <= |f.content| && p <= f.content[f.pos..]
    ensures Left(staged, total, idx, Some(f)) == p + Left(staged, total, idx, Some(f.(pos := f.pos + |p|)))
  {
    assert f.content[f.pos..] == p + f.content[f.pos + |p|..];
  }

  /** Reading to the end with buffers of any sizes ends, and yields the chunks in order. */
  method Drain(reader: StagedChunksReader, sizes: nat -> nat) returns (parts: seq<seq<byte>>)
    requires reader.Valid() && AllPresent(reader.staged, reader.total) && forall k :: sizes(k) > 0
    modifies reader
    ensures reader.Valid() && Flatten(parts) == old(reader.Remaining())
  {
    parts := [];
    ghost var left := reader.Remaining();
    ghost var all, gone: seq<byte> := left, [];
    var k: nat := 0;
    while true
      invariant reader.Valid() && left == reader.Remaining()
      invariant gone == Flatten(parts) && all == gone + left
      decreases |left|
    {
      var r := reader.Read(sizes(k));
      match r {
        case Data(p) =>
          FlattenSnoc(parts, p);
          ConcatAssociates(gone, p, reader.Remaining());
          gone, left := gone + p, reader.Remaining();
          parts := parts + [p];
        case _ =>
          return;
      }
      k := k + 1;
    }
  }

  // ----- the handlers -----

  datatype FinalizeResult =
    | Stored(size: nat) | OwnershipFailed
    | Refused | NoStagedChunks | InvalidTotal | MissingChunk(i: nat) | WrongRoot | StoreFailed(e: Store.PutError)

  /** PutStream's copy buffer. */
  const COPY_BUFFER: nat := 1048576

  class Uploads {
    const store: Store.Store
    var staging: map<Name, Staged>

    constructor (store: Store.Store)
      ensures this.store == store && staging == map[]
    {
      this.store, staging := store, map[];
    }

    function StagedFor(root: Name): Staged
      reads this
    {
      if root in staging then staging[root] else NOTHING
    }

    /** handleUploadChunk after the token checks. Writing a chunk again replaces it. */
    method UploadChunk(root: Name, q: Request, chunkWrite: Written<seq<byte>>, metaWrite: Written<int>) returns (ok: bool)
      modifies this
      ensures ok <==> 0 <= q.index < q.total && q.data != [] && chunkWrite == Whole
      ensures ok ==> q.index in StagedFor(root).chunks && StagedFor(root).chunks[q.index] == q.data
      ensures ok && metaWrite == Whole ==> StagedFor(root).meta == Some(q.total)
      ensures StagedFor(root) == AfterWrites(old(StagedFor(root)), q, chunkWrite, metaWrite)
      ensures forall m :: m != root ==> StagedFor(m) == old(StagedFor(m))
    {
      if q.index < 0 || q.total <= 0 || q.index >= q.total {
        return false;
      }
      var s := StagedFor(root);
      staging := staging[root := s];
      if |q.data| == 0 {
        return false;
      }
      match chunkWrite {
        case Untouched =>
          return false;
        case Torn(left) =>
          staging := staging[root := s.(chunks := s.chunks[q.index := left])];
          return false;
        case Whole =>
          s := s.(chunks := s.chunks[q.index := q.data]);
      }
      match metaWrite {
        case Untouched =>
        case Torn(left) => s := s.(meta := Some(left));
        case Whole => s := s.(meta := Some(q.total));
      }
      staging := staging[root := s];
      return true;
    }

    /**
     * handleUploadFinalize. Exactly the assembled chunks are stored, and only under the root they hash
     * to; a wrong root stores nothing and drops the staged chunks, a store error keeps them for a retry.
     */
    method Finalize(root: Name, admitted: bool, own: Store.Ownership, ownFails: bool, chmodFails: bool,
                    tempId: nat, f: Store.PutFaults)
        returns (r: FinalizeResult)
      requires tempId !in store.temps
      modifies this, store
      ensures var s := old(StagedFor(root));
              if !admitted then r == Refused
              else if s.meta.None? then r == NoStagedChunks
              else if s.meta.value <= 0 then r == InvalidTotal
              else if !AllPresent(s, s.meta.value) then
                r.MissingChunk? && r.i < s.meta.value && r.i !in s.chunks && forall k :: 0 <= k < r.i ==> k in s.chunks
              else
                var data := Assembled(s, 0, s.meta.value);
                && Concluded(store.H, root, data, f, own, root in old(store.ownership), ownFails || chmodFails, r)
                && (r.Stored? || r.OwnershipFailed? ==>
                      && data != [] && root == TreeOf(store.H, data).value.root
                      && store.objects == old(store.objects)[root := data]
                      && store.index == old(store.index)[root := IndexOf(store.H, data, CHUNK_SIZE)])
                && (r.Stored? ==> r.size == |data| && StagedFor(root) == NOTHING)
                && (r.WrongRoot? ==> data != [] && root != TreeOf(store.H, data).value.root && StagedFor(root) == NOTHING)
                && (r.StoreFailed? ==> StagedFor(root) == s)
                && (f == Store.NO_PUT_FAULTS ==>
                      if data == [] then r == StoreFailed(Store.MerkleFailed(EmptyData))
                      else if root == TreeOf(store.H, data).value.root then r.Stored? || r.OwnershipFailed?
                      else r == WrongRoot)
      ensures !r.Stored? && !r.OwnershipFailed? ==> store.objects == old(store.objects)
      ensures store.ownership == if (r.Stored? || (r.OwnershipFailed? && !ownFails)) && root !in old(store.ownership)
                                    && own.ownerPubkey != [] && own.ownerSigPubkey != []
                                 then old(store.ownership)[root := own] else old(store.ownership)
    {
      if !admitted {
        staging := staging - {root};
        return Refused;
      }
      var s := StagedFor(root);
      if s.meta.None? {
        return NoStagedChunks;
      }
      var total := s.meta.value;
      if total <= 0 {
        return InvalidTotal;
      }
      for i := 0 to total
        invariant forall k :: 0 <= k < i ==> k in s.chunks
      {
        if i !in s.chunks {
          return MissingChunk(i);
        }
      }
      var reader := new StagedChunksReader(s, total);
      var parts := Drain(reader, _ => COPY_BUFFER);
      r := StoreParts(root, parts, own, ownFails, chmodFails, tempId, f);
    }

    /** From the assembled parts on. */
    method StoreParts(root: Name, parts: seq<seq<byte>>, own: Store.Ownership, ownFails: bool, chmodFails: bool,
                      tempId: nat, f: Store.PutFaults)
        returns (r: FinalizeResult)
      requires tempId !in store.temps
      modifies this`staging, store
      ensures r == Verdict(store.H, root, parts, f, own, root in old(store.ownership), ownFails || chmodFails)
      ensures store.objects == if r.Stored? || r.OwnershipFailed? then old(store.objects)[root := Flatten(parts)]
                               else old(store.objects)
      ensures r.Stored? || r.OwnershipFailed? ==>
                store.index == old(store.index)[root := IndexOf(store.H, Flatten(parts), CHUNK_SIZE)]
      ensures store.ownership == if (r.Stored? || (r.OwnershipFailed? && !ownFails)) && root !in old(store.ownership)
                                    && own.ownerPubkey != [] && own.ownerSigPubkey != []
                                 then old(store.ownership)[root := own] else old(store.ownership)
      ensures StagedFor(root) == if r.Stored? || r.WrongRoot? then NOTHING else old(StagedFor(root))
    {
      var put := store.PutStream(tempId, root, parts, f);
      if put.Err? {
        if put.error == Store.MerkleMismatch {
          staging := staging - {root};
          return WrongRoot;
        }
        return StoreFailed(put.error);
      }
      if own.ownerPubkey != [] && own.ownerSigPubkey != [] {
        var refused := store.PutOwnership(root, own, ownFails, chmodFails);
        if refused.Some? && refused.value != Store.AlreadyOwned {
          return OwnershipFailed;
        }
      }
      staging := staging - {root};
      return Stored(put.value);
    }
  }

  /** PutStream's verdict on the parts, and then the ownership record's. */
  function Verdict(H: Hashes, root: Name, parts: seq<seq<byte>>, f: Store.PutFaults, own: Store.Ownership, owned: bool,
                   ownFails: bool): (r: FinalizeResult)
    ensures r.Stored? || r.OwnershipFailed? ==> Flatten(parts) != [] && root == TreeOf(H, Flatten(parts)).value.root
    ensures r.WrongRoot? ==> Flatten(parts) != [] && root != TreeOf(H, Flatten(parts)).value.root
  {
    match Store.PutVerdict(H, root, parts, f)
    case Some(e) =>
      if e == Store.MerkleMismatch then
        assert Store.SpoolError(H, root, parts, f) == Some(Store.MerkleMismatch);
        WrongRoot
      else StoreFailed(e)
    case None =>
      if own.ownerPubkey != [] && own.ownerSigPubkey != [] && !owned && ownFails then OwnershipFailed
      else Stored(|Flatten(parts)|)
  }

  /** That verdict, for however the assembled bytes were read. */
  ghost predicate Concluded(H: Hashes, root: Name, data: seq<byte>, f: Store.PutFaults, own: Store.Ownership, owned: bool,
                            ownFails: bool, r: FinalizeResult)
  {
    exists parts :: Flatten(parts) == data && r == Verdict(H, root, parts, f, own, owned, ownFails)
  }

  /**
   * The whole round trip: chunks of any split of an object, sent in any order and with overwrites,
   * then finalized under the object's root, store exactly the object.
   */
  method UploadInChunks(u: Uploads, root: Name, qs: seq<Request>, ghost parts: seq<seq<byte>>,
                        own: Store.Ownership, tempId: nat)
      returns (r: FinalizeResult)
    requires Delivers(qs, parts) && Flatten(parts) != [] && root == TreeOf(u.store.H, Flatten(parts)).value.root
    requires tempId !in u.store.temps
    modifies u, u.store
    ensures r == Stored(|Flatten(parts)|)
    ensures u.store.objects == old(u.store.objects)[root := Flatten(parts)]
    ensures u.store.index == old(u.store.index)[root := IndexOf(u.store.H, Flatten(parts), CHUNK_SIZE)]
    ensures u.StagedFor(root) == NOTHING
  {
    ghost var before := u.StagedFor(root);
    for k := 0 to |qs|
      invariant u.StagedFor(root) == AfterChunks(before, qs[..k])
      invariant u.store.objects == old(u.store.objects) && u.store.index == old(u.store.index)
      invariant u.store.temps == old(u.store.temps)
    {
      assert qs[..k + 1][..k] == qs[..k];
      var _ := u.UploadChunk(root, qs[k], Whole, Whole);
    }
    assert qs[..|qs|] == qs;
    DeliveredIsStaged(before, qs, parts);
    r := u.Finalize(root, true, own, false, false, tempId, Store.NO_PUT_FAULTS);
  }
}
