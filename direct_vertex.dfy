/**
 * `graph.data.DirectVertex`: a vertex kept as a fixed 24-byte record in DXRAM's local memory
 * (depth, neighbour count, neighbour chunk id, neighbour address), whose neighbours live in a
 * separate chunk of longs. DXRAM's chunk services are modelled by `ChunkStore`: a table from
 * chunk id to address, the memory as a map from address to chunk contents, and the pins.
 */
module DirectVertex {
  import opened Wrappers
  import opened Numeric
  import opened DataVertex

  const OFFSET_DEPTH: int := 0
  const OFFSET_NEIGHBORS_LENGTH: int := 4
  const OFFSET_NEIGHBORS_CID: int := 8
  const OFFSET_NEIGHBORS_ADDR: int := 16
  const INT_BYTES: int := 4
  const LONG_BYTES: int := 8

  /** `size()`: two ints (depth, neighbour count) and two longs (neighbour chunk id and address). */
  function Size(): int {
    INT_BYTES + INT_BYTES + LONG_BYTES + LONG_BYTES
  }

  /** The four fields are laid out back to back, without overlap, and fill the record exactly. */
  lemma Layout()
    ensures Size() == 24
    ensures OFFSET_DEPTH == 0 && OFFSET_DEPTH + INT_BYTES == OFFSET_NEIGHBORS_LENGTH
    ensures OFFSET_NEIGHBORS_LENGTH + INT_BYTES == OFFSET_NEIGHBORS_CID
    ensures OFFSET_NEIGHBORS_CID + LONG_BYTES == OFFSET_NEIGHBORS_ADDR
    ensures OFFSET_NEIGHBORS_ADDR + LONG_BYTES == Size()
  {
  }

  /** The `RuntimeException`s the class throws, and the array allocation failure. */
  datatype Exception = CreateFailed | RemoveFailed | NotInitialized | NegativeArraySize

  /** Chunk contents: a vertex record, or an array of longs. */
  datatype Chunk =
    | Record(depth: int, length: int, neighborsCid: int, neighborsAddr: int)
    | Longs(values: seq<int>)

  /** A record freshly created and not yet written. */
  const ZERO_RECORD: Chunk := Record(0, 0, 0, 0)

  /**
   * The local chunk store: chunk id to address, address to contents, the pinned chunk ids,
   * the next chunk id and address the allocator hands out, and how many chunks it can still create.
   */
  datatype Heap = Heap(table: map<int, int>, memory: map<int, Chunk>, pins: multiset<int>,
                       nextCid: int, nextAddress: int, free: nat)

  /**
   * Chunk ids in use are below the next one the allocator hands out, which is never the invalid
   * id; addresses in use are below the next address.
   */
  predicate Valid(h: Heap) {
    h.nextCid >= 0 && INVALID_ID !in h.table &&
    (forall c :: c in h.table ==> c < h.nextCid) &&
    (forall a :: a in h.memory ==> a < h.nextAddress)
  }

  /** Existing chunk ids keep their address, and the contents at every address but `a` are kept. */
  ghost predicate ChangesOnly(h0: Heap, h: Heap, a: int) {
    (forall c :: c in h0.table ==> c in h.table && h.table[c] == h0.table[c]) &&
    (forall x :: x in h0.memory && x != a ==> x in h.memory && h.memory[x] == h0.memory[x])
  }

  /** Existing chunk ids keep their address and contents. */
  ghost predicate Extends(h0: Heap, h: Heap) {
    (forall c :: c in h0.table ==> c in h.table && h.table[c] == h0.table[c]) &&
    (forall x :: x in h0.memory ==> x in h.memory && h.memory[x] == h0.memory[x])
  }

  /** One chunk created with contents `c`: the next chunk id, at the next address. */
  function Alloc(h: Heap, c: Chunk): (r: Heap)
    requires h.free > 0
  {
    h.(table := h.table[h.nextCid := h.nextAddress], memory := h.memory[h.nextAddress := c],
       nextCid := h.nextCid + 1, nextAddress := h.nextAddress + 1, free := h.free - 1)
  }

  /** A new chunk is not in use before, is found at its address afterwards, and nothing else changes. */
  lemma AllocFacts(h: Heap, c: Chunk)
    requires Valid(h) && h.free > 0
    ensures Valid(Alloc(h, c)) && Extends(h, Alloc(h, c))
    ensures h.nextCid !in h.table && h.nextAddress !in h.memory
    ensures Alloc(h, c).table[h.nextCid] == h.nextAddress && Alloc(h, c).memory[h.nextAddress] == c
  {
  }

  /** `n` chunks created with contents `c`, one after the other. */
  function AllocMany(h: Heap, c: Chunk, n: nat): (r: Heap)
    requires n <= h.free
    ensures r.free == h.free - n && r.pins == h.pins
    ensures r.nextCid == h.nextCid + n && r.nextAddress == h.nextAddress + n
    decreases n
  {
    if n == 0 then h else Alloc(AllocMany(h, c, n - 1), c)
  }

  /** The `n` new chunks take consecutive ids and addresses; nothing that existed changes. */
  lemma {:induction false} AllocManyFacts(h: Heap, c: Chunk, n: nat)
    requires Valid(h) && n <= h.free
    ensures var r := AllocMany(h, c, n);
      Valid(r) && Extends(h, r) && r.pins == h.pins && r.free == h.free - n &&
      r.nextCid == h.nextCid + n && r.nextAddress == h.nextAddress + n &&
      (forall k :: h.nextCid <= k < h.nextCid + n ==> k in r.table && r.table[k] == h.nextAddress + (k - h.nextCid)) &&
      (forall x :: h.nextAddress <= x < h.nextAddress + n ==> x in r.memory && r.memory[x] == c) &&
      (forall k :: k in r.table ==> k in h.table || h.nextCid <= k < h.nextCid + n) &&
      (forall x :: x in r.memory ==> x in h.memory || h.nextAddress <= x < h.nextAddress + n)
    decreases n
  {
    if n > 0 {
      AllocManyFacts(h, c, n - 1);
      AllocFacts(AllocMany(h, c, n - 1), c);
    }
  }

  /** The memory with the `count` addresses from `base` on overwritten by `c`. */
  function Written(m: map<int, Chunk>, base: int, count: nat, c: Chunk): map<int, Chunk>
    decreases count
  {
    if count == 0 then m else Written(m, base, count - 1, c)[base + count - 1 := c]
  }

  /** Addresses at or past the written range keep their contents. */
  lemma {:induction false} WrittenBeyond(m: map<int, Chunk>, base: int, count: nat, c: Chunk, x: int)
    requires x >= base + count
    ensures x in Written(m, base, count, c) <==> x in m
    ensures x in m ==> Written(m, base, count, c)[x] == m[x]
    decreases count
  {
    if count > 0 {
      WrittenBeyond(m, base, count - 1, c, x);
    }
  }

  /** Overwriting past the range commutes with the range write. */
  lemma {:induction false} WrittenUpdate(m: map<int, Chunk>, base: int, count: nat, c: Chunk, x: int, d: Chunk)
    requires x >= base + count
    ensures Written(m[x := d], base, count, c) == Written(m, base, count, c)[x := d]
    decreases count
  {
    if count > 0 {
      WrittenUpdate(m, base, count - 1, c, x, d);
    }
  }

  /** Creating `n` fresh records and then writing `c` into each is creating them with `c`. */
  lemma {:induction false} AllocManyWritten(h: Heap, c: Chunk, n: nat)
    requires n <= h.free
    ensures AllocMany(h, ZERO_RECORD, n).(memory := Written(AllocMany(h, ZERO_RECORD, n).memory, h.nextAddress, n, c))
         == AllocMany(h, c, n)
    decreases n
  {
    if n > 0 {
      AllocManyWritten(h, c, n - 1);
      var z := AllocMany(h, ZERO_RECORD, n - 1);
      var a := h.nextAddress + n - 1;
      WrittenUpdate(z.memory, h.nextAddress, n - 1, c, a, ZERO_RECORD);
    }
  }

  /** The chunk ids `count` creations starting at `first` hand out. */
  function Ids(first: int, count: nat): (r: seq<int>)
    ensures |r| == count && forall i :: 0 <= i < count ==> r[i] == first + i
  {
    seq(count, i => first + i)
  }

  /** `readInt` of a field: an int field as written; at the neighbour-id offset the low half of that long (little-endian memory). */
  function IntField(r: Chunk, offset: int): int
    requires r.Record?
  {
    if offset == OFFSET_DEPTH then r.depth
    else if offset == OFFSET_NEIGHBORS_LENGTH then r.length
    else if offset == OFFSET_NEIGHBORS_CID then WrapInt(r.neighborsCid)
    else WrapInt(r.neighborsAddr)
  }

  /** A record with the field at `offset` overwritten. */
  function SetField(r: Chunk, offset: int, value: int): Chunk
    requires r.Record?
  {
    if offset == OFFSET_DEPTH then r.(depth := value)
    else if offset == OFFSET_NEIGHBORS_LENGTH then r.(length := value)
    else if offset == OFFSET_NEIGHBORS_CID then r.(neighborsCid := value)
    else r.(neighborsAddr := value)
  }

  /** The chunk `cid` removed, when it exists: its id and its memory are gone. */
  function Removed(h: Heap, cid: int): (r: (Heap, nat))
    ensures r.1 == (if cid in h.table then 1 else 0)
  {
    if cid in h.table then (h.(table := h.table - {cid}, memory := h.memory - {h.table[cid]}), 1)
    else (h, 0)
  }

  /** `remove().remove(cids)`: each id removed in turn; the number of chunks removed. */
  function RemovedAll(h: Heap, cids: seq<int>): (r: (Heap, nat))
    ensures r.1 <= |cids|
    decreases |cids|
  {
    if cids == [] then (h, 0)
    else
      var first := Removed(h, cids[0]);
      var rest := RemovedAll(first.0, cids[1..]);
      (rest.0, first.1 + rest.1)
  }

  /** All ids are removed exactly when they are distinct chunks that all exist. */
  lemma {:induction false} RemovedAllCount(h: Heap, cids: seq<int>)
    ensures RemovedAll(h, cids).1 == |cids| <==>
      (forall i, j :: 0 <= i < j < |cids| ==> cids[i] != cids[j]) && (forall i :: 0 <= i < |cids| ==> cids[i] in h.table)
    decreases |cids|
  {
    if cids != [] {
      var h1 := Removed(h, cids[0]).0;
      var rest := cids[1..];
      RemovedAllCount(h1, rest);
      assert forall i :: 0 < i < |cids| ==> cids[i] == rest[i - 1];
      if RemovedAll(h, cids).1 == |cids| {
        assert cids[0] in h.table;
        forall i | 0 < i < |cids|
          ensures cids[i] != cids[0] && cids[i] in h.table
        {
          assert rest[i - 1] in h1.table;
        }
      }
    }
  }

  /** The chunk ids a reserved creation may take: distinct and unused. */
  predicate Reservable(h: Heap, ids: seq<int>) {
    (forall i, j :: 0 <= i < j < |ids| ==> ids[i] != ids[j]) &&
    (forall i :: 0 <= i < |ids| ==> ids[i] !in h.table && ids[i] != INVALID_ID) && |ids| <= h.free
  }

  /** Chunks created under the given ids, at consecutive new addresses. */
  function Reserve(h: Heap, ids: seq<int>): (r: Heap)
    requires |ids| <= h.free
    ensures r.free == h.free - |ids| && r.pins == h.pins && r.nextAddress == h.nextAddress + |ids|
    decreases |ids|
  {
    if ids == [] then h
    else
      var r := Reserve(h, ids[..|ids| - 1]);
      var id := ids[|ids| - 1];
      r.(table := r.table[id := r.nextAddress], memory := r.memory[r.nextAddress := ZERO_RECORD],
         nextCid := if id < r.nextCid then r.nextCid else id + 1, nextAddress := r.nextAddress + 1,
         free := r.free - 1)
  }

  /** Each reserved id gets a new address holding a fresh record; nothing that existed changes. */
  lemma {:induction false} ReserveFacts(h: Heap, ids: seq<int>)
    requires Valid(h) && Reservable(h, ids)
    ensures var r := Reserve(h, ids);
      Valid(r) && Extends(h, r) && r.pins == h.pins && r.free == h.free - |ids| &&
      r.nextAddress == h.nextAddress + |ids| &&
      (forall i :: 0 <= i < |ids| ==> ids[i] in r.table && r.table[ids[i]] == h.nextAddress + i) &&
      (forall x :: h.nextAddress <= x < h.nextAddress + |ids| ==> x in r.memory && r.memory[x] == ZERO_RECORD)
    decreases |ids|
  {
    if ids != [] {
      var n := |ids| - 1;
      var init := ids[..n];
      assert Reservable(h, init) by {
        assert forall i :: 0 <= i < n ==> init[i] == ids[i];
      }
      ReserveFacts(h, init);
      assert forall i :: 0 <= i < n ==> ids[i] != ids[n];
    }
  }

  /**
   * DXRAM's chunk services as the class uses them. Creation is all or nothing: when fewer
   * chunks are free than requested, none is created and the count returned is 0.
   */
  class ChunkStore {
    var heap: Heap
    const invalidAddress: int

    constructor (firstCid: int, invalidAddress: int, free: nat)
      requires firstCid >= 0
      ensures heap == Heap(map[], map[], multiset{}, firstCid, 1, free) && Valid(heap)
      ensures this.invalidAddress == invalidAddress
    {
      heap := Heap(map[], map[], multiset{}, firstCid, 1, free);
      this.invalidAddress := invalidAddress;
    }

    /** `createLocal().create(cids, count, size())`: `count` new records, or none. */
    method CreateRecords(count: nat) returns (cids: seq<int>)
      requires Valid(heap)
      modifies this
      ensures count <= old(heap.free) ==> cids == Ids(old(heap.nextCid), count) && heap == AllocMany(old(heap), ZERO_RECORD, count)
      ensures count > old(heap.free) ==> cids == [] && heap == old(heap)
    {
      if count <= heap.free {
        cids := Ids(heap.nextCid, count);
        heap := AllocMany(heap, ZERO_RECORD, count);
      } else {
        cids := [];
      }
    }

    /** `createLocal().create(newCID, 1, Long.BYTES * length)`: one chunk for `length` longs, or none. */
    method CreateLongs(length: nat) returns (cids: seq<int>)
      requires Valid(heap)
      modifies this
      ensures old(heap.free) > 0 ==> cids == [old(heap.nextCid)] && heap == Alloc(old(heap), Longs(seq(length, _ => 0)))
      ensures old(heap.free) == 0 ==> cids == [] && heap == old(heap)
    {
      if heap.free > 0 {
        cids := [heap.nextCid];
        heap := Alloc(heap, Longs(seq(length, _ => 0)));
      } else {
        cids := [];
      }
    }

    /** `createReservedLocal().create(cids, n, sizes)`: records under the given ids, or none. */
    method CreateReserved(ids: seq<int>) returns (created: nat)
      requires Valid(heap)
      modifies this
      ensures Reservable(old(heap), ids) ==> created == |ids| && heap == Reserve(old(heap), ids)
      ensures !Reservable(old(heap), ids) ==> created == 0 && heap == old(heap)
    {
      if Reservable(heap, ids) {
        created := |ids|;
        heap := Reserve(heap, ids);
      } else {
        created := 0;
      }
    }

    /** `pinningLocal().pin(cid).getAddress()`. */
    method Pin(cid: int) returns (address: int)
      requires cid in heap.table
      modifies this
      ensures heap == old(heap).(pins := old(heap.pins) + multiset{cid}) && address == heap.table[cid]
    {
      address := heap.table[cid];
      heap := heap.(pins := heap.pins + multiset{cid});
    }

    /** `pinningLocal().unpinCID(cid)`. */
    method UnpinCid(cid: int)
      modifies this
      ensures heap == old(heap).(pins := old(heap.pins) - multiset{cid})
    {
      heap := heap.(pins := heap.pins - multiset{cid});
    }

    /** `pinningLocal().translate(cid)`: the address, without pinning. */
    method Translate(cid: int) returns (address: int)
      requires cid in heap.table
      ensures address == heap.table[cid]
    {
      address := heap.table[cid];
    }

    /** `rawReadLocal().readInt(address, offset)` on a record. */
    method ReadInt(address: int, offset: int) returns (value: int)
      requires address in heap.memory && heap.memory[address].Record?
      ensures value == IntField(heap.memory[address], offset)
    {
      value := IntField(heap.memory[address], offset);
    }

    /** `rawReadLocal().readLong(address, offset)` of a long field of a record. */
    method ReadLong(address: int, offset: int) returns (value: int)
      requires address in heap.memory && heap.memory[address].Record?
      requires offset == OFFSET_NEIGHBORS_CID || offset == OFFSET_NEIGHBORS_ADDR
      ensures value == (if offset == OFFSET_NEIGHBORS_CID then heap.memory[address].neighborsCid
                        else heap.memory[address].neighborsAddr)
    {
      var r := heap.memory[address];
      value := if offset == OFFSET_NEIGHBORS_CID then r.neighborsCid else r.neighborsAddr;
    }

    /** `rawWriteLocal().writeInt/writeLong(address, offset, value)` on a record field. */
    method WriteField(address: int, offset: int, value: int)
      requires address in heap.memory && heap.memory[address].Record?
      modifies this
      ensures heap == old(heap).(memory := old(heap.memory)[address := SetField(old(heap.memory[address]), offset, value)])
    {
      heap := heap.(memory := heap.memory[address := SetField(heap.memory[address], offset, value)]);
    }

    /** `rawReadLocal().readLongArray(address, 0, count)`. */
    method ReadLongArray(address: int, count: nat) returns (values: seq<int>)
      requires address in heap.memory && heap.memory[address].Longs? && count <= |heap.memory[address].values|
      ensures values == heap.memory[address].values[..count]
    {
      values := heap.memory[address].values[..count];
    }

    /** `rawWriteLocal().writeLongArray(address, 0, values)` into a chunk of that many longs. */
    method WriteLongArray(address: int, values: seq<int>)
      requires address in heap.memory && heap.memory[address].Longs?
      modifies this
      ensures heap == old(heap).(memory := old(heap.memory)[address := Longs(values)])
    {
      heap := heap.(memory := heap.memory[address := Longs(values)]);
    }

    /** `remove().remove(cid)`: the number of chunks removed. */
    method Remove(cid: int) returns (removed: nat)
      modifies this
      ensures (heap, removed) == Removed(old(heap), cid)
    {
      heap, removed := Removed(heap, cid).0, Removed(heap, cid).1;
    }

    /** `remove().remove(cids)`. */
    method RemoveAll(cids: seq<int>) returns (removed: nat)
      modifies this
      ensures (heap, removed) == RemovedAll(old(heap), cids)
    {
      heap, removed := RemovedAll(heap, cids).0, RemovedAll(heap, cids).1;
    }
  }

  // ---------------------------------------------------------------------------------------
  // What a record means

  /** The record at `address`, when that address holds one. */
  function RecordAt(h: Heap, address: int): Option<Chunk> {
    if address in h.memory && h.memory[address].Record? then Some(h.memory[address]) else None
  }

  /** The record of chunk `cid`, when it has one. */
  function RecordOf(h: Heap, cid: int): Option<Chunk> {
    if cid in h.table then RecordAt(h, h.table[cid]) else None
  }

  /**
   * What `getNeighbors` reads through the record at `address`: nothing when the count is 0,
   * otherwise that many longs at the neighbour address; none when those are not there to read.
   */
  function NeighborsAt(h: Heap, address: int): Option<seq<int>> {
    match RecordAt(h, address)
    case None => None
    case Some(r) =>
      if r.length == 0 then Some([])
      else if r.neighborsAddr in h.memory && h.memory[r.neighborsAddr].Longs? &&
              0 <= r.length <= |h.memory[r.neighborsAddr].values|
      then Some(h.memory[r.neighborsAddr].values[..r.length])
      else None
  }

  /** What the static `getNeighbors(cid)` reads. */
  function NeighborsOf(h: Heap, cid: int): Option<seq<int>> {
    if cid in h.table then NeighborsAt(h, h.table[cid]) else None
  }

  /**
   * The record `r` points at exactly `neighbors`: its count is their number and, when there are
   * some, its id and address name a chunk holding them; otherwise the invalid id and `emptyAddress`.
   */
  ghost predicate LinksTo(h: Heap, r: Chunk, neighbors: seq<int>, emptyAddress: int)
    requires r.Record?
  {
    r.length == |neighbors| &&
    if neighbors == [] then r.neighborsCid == INVALID_ID && r.neighborsAddr == emptyAddress
    else r.neighborsCid in h.table && h.table[r.neighborsCid] == r.neighborsAddr &&
         r.neighborsAddr in h.memory && h.memory[r.neighborsAddr] == Longs(neighbors)
  }

  /** The chunk `cid` holds vertex `v`: its depth, and a link to exactly its neighbours. */
  ghost predicate StoresVertex(h: Heap, cid: int, v: VertexValue, emptyAddress: int) {
    RecordOf(h, cid).Some? && RecordOf(h, cid).value.depth == v.depth &&
    LinksTo(h, RecordOf(h, cid).value, v.neighbors, emptyAddress)
  }

  /** A stored vertex reads back: `getNeighbors` gives its neighbours and `getDepth` its depth. */
  lemma StoredReadsBack(h: Heap, cid: int, v: VertexValue, emptyAddress: int)
    requires StoresVertex(h, cid, v, emptyAddress)
    ensures NeighborsOf(h, cid) == Some(v.neighbors)
    ensures RecordOf(h, cid).value.depth == v.depth
  {
    if v.neighbors != [] {
      var r := RecordOf(h, cid).value;
      assert h.memory[r.neighborsAddr].values[..r.length] == v.neighbors;
    }
  }

  /** A stored vertex stays stored when neither its record nor its neighbour chunk is written. */
  lemma StoresKept(h0: Heap, h: Heap, a: int, cid: int, v: VertexValue, emptyAddress: int)
    requires StoresVertex(h0, cid, v, emptyAddress) && ChangesOnly(h0, h, a)
    requires h0.table[cid] != a
    requires v.neighbors != [] ==> RecordOf(h0, cid).value.neighborsAddr != a
    ensures StoresVertex(h, cid, v, emptyAddress)
  {
  }

  /** Pinning and unpinning change nothing a vertex reads. */
  lemma StoresIgnoresPins(h: Heap, pins: multiset<int>, cid: int, v: VertexValue, emptyAddress: int)
    requires StoresVertex(h, cid, v, emptyAddress)
    ensures StoresVertex(h.(pins := pins), cid, v, emptyAddress)
  {
    assert RecordOf(h.(pins := pins), cid) == RecordOf(h, cid);
  }

  /** The record every `create()` writes: depth -1, no neighbours, invalid id and address. */
  function DefaultRecord(invalidAddress: int): Chunk {
    Record(-1, 0, INVALID_ID, invalidAddress)
  }

  /** A default record reads back as a new vertex: depth -1 and no neighbours. */
  lemma DefaultIsNewVertex(h: Heap, cid: int, invalidAddress: int)
    requires RecordOf(h, cid) == Some(DefaultRecord(invalidAddress))
    ensures StoresVertex(h, cid, NEW_VERTEX, invalidAddress)
    ensures NeighborsOf(h, cid) == Some([])
  {
  }

  /** How many of the vertices have neighbours: the neighbour chunks copying them creates. */
  function WithNeighbors(vs: seq<VertexValue>): (r: nat)
    ensures r <= |vs|
    decreases |vs|
  {
    if vs == [] then 0
    else WithNeighbors(vs[..|vs| - 1]) + (if vs[|vs| - 1].neighbors == [] then 0 else 1)
  }

  /** A longer prefix has at least as many vertices with neighbours. */
  lemma {:induction false} WithNeighborsPrefix(vs: seq<VertexValue>, i: nat)
    requires i <= |vs|
    ensures WithNeighbors(vs[..i]) <= WithNeighbors(vs)
    decreases |vs|
  {
    if i < |vs| {
      WithNeighborsPrefix(vs[..|vs| - 1], i);
      assert vs[..|vs| - 1][..i] == vs[..i];
    } else {
      assert vs[..i] == vs;
    }
  }

  // ---------------------------------------------------------------------------------------
  // Creation

  /** Writes the four default fields into the record at `address`, as every `create()` does. */
  method WriteDefaults(store: ChunkStore, address: int)
    requires address in store.heap.memory && store.heap.memory[address].Record?
    modifies store
    ensures store.heap == old(store.heap).(memory := old(store.heap.memory)[address := DefaultRecord(store.invalidAddress)])
  {
    store.WriteField(address, OFFSET_DEPTH, -1);
    store.WriteField(address, OFFSET_NEIGHBORS_LENGTH, 0);
    store.WriteField(address, OFFSET_NEIGHBORS_CID, INVALID_ID);
    store.WriteField(address, OFFSET_NEIGHBORS_ADDR, store.invalidAddress);
  }

  /**
   * `create()`: one new record holding the defaults, unpinned again; it fails, creating
   * nothing, when the store cannot create the chunk.
   */
  method Create(store: ChunkStore) returns (r: Result<int, Exception>)
    requires Valid(store.heap)
    modifies store
    ensures old(store.heap.free) == 0 ==> r == Err(CreateFailed) && store.heap == old(store.heap)
    ensures old(store.heap.free) > 0 ==>
      r == Ok(old(store.heap.nextCid)) && r.value !in old(store.heap.table) &&
      store.heap == Alloc(old(store.heap), DefaultRecord(store.invalidAddress))
  {
    ghost var h0 := store.heap;
    var cid := store.CreateRecords(1);
    if |cid| != 1 {
      return Err(CreateFailed);
    }
    assert AllocMany(h0, ZERO_RECORD, 1) == Alloc(h0, ZERO_RECORD);
    AllocFacts(h0, ZERO_RECORD);
    var address := store.Pin(cid[0]);
    WriteDefaults(store, address);
    store.UnpinCid(cid[0]);
    assert store.heap.pins == h0.pins;
    return Ok(cid[0]);
  }

  /** One turn of the `create(count)` loop: the record of `cid`, the next in line, gets the defaults. */
  method InitDefault(store: ChunkStore, cid: int, ghost h1: Heap, ghost base: int, ghost i: nat)
    requires store.heap == h1.(memory := Written(h1.memory, base, i, DefaultRecord(store.invalidAddress)))
    requires cid in h1.table && h1.table[cid] == base + i && base + i in h1.memory && h1.memory[base + i].Record?
    modifies store
    ensures store.heap == h1.(memory := Written(h1.memory, base, i + 1, DefaultRecord(store.invalidAddress)))
  {
    WrittenBeyond(h1.memory, base, i, DefaultRecord(store.invalidAddress), base + i);
    ghost var h := store.heap;
    var address := store.Pin(cid);
    WriteDefaults(store, address);
    store.UnpinCid(cid);
    assert store.heap.pins == h.pins;
  }

  /**
   * `create(count)`: `count` new records holding the defaults, each pinned and unpinned once;
   * a negative count fails on the array allocation, too few free chunks on the creation.
   */
  method CreateMany(store: ChunkStore, count: int) returns (r: Result<seq<int>, Exception>)
    requires Valid(store.heap)
    modifies store
    ensures count < 0 ==> r == Err(NegativeArraySize) && store.heap == old(store.heap)
    ensures count >= 0 && count > old(store.heap.free) ==> r == Err(CreateFailed) && store.heap == old(store.heap)
    ensures 0 <= count <= old(store.heap.free) ==>
      r == Ok(Ids(old(store.heap.nextCid), count)) &&
      store.heap == AllocMany(old(store.heap), DefaultRecord(store.invalidAddress), count)
  {
    if count < 0 {
      return Err(NegativeArraySize);
    }
    ghost var h0 := store.heap;
    var cids := store.CreateRecords(count);
    if |cids| != count {
      return Err(CreateFailed);
    }
    ghost var h1 := store.heap;
    ghost var base := h0.nextAddress;
    AllocManyFacts(h0, ZERO_RECORD, count);
    var i := 0;
    while i < count
      invariant 0 <= i <= count && cids == Ids(h0.nextCid, count)
      invariant store.heap == h1.(memory := Written(h1.memory, base, i, DefaultRecord(store.invalidAddress)))
    {
      assert cids[i] == h0.nextCid + i && base <= base + i < base + count;
      InitDefault(store, cids[i], h1, base, i);
      i := i + 1;
    }
    AllocManyWritten(h0, DefaultRecord(store.invalidAddress), count);
    return Ok(cids);
  }

  /**
   * The neighbour part every vertex copy and `setNeighbors` write into the record at `address`:
   * the count, then for no neighbours the invalid id and `emptyAddress`, otherwise a new chunk,
   * left pinned, that receives them. It fails, with the count already written, when that chunk
   * cannot be created.
   */
  method WriteNeighbors(store: ChunkStore, address: int, neighbors: seq<int>, emptyAddress: int)
    returns (r: Result<(), Exception>)
    requires Valid(store.heap) && RecordAt(store.heap, address).Some?
    modifies store
    ensures Valid(store.heap) && ChangesOnly(old(store.heap), store.heap, address)
    ensures r.Err? <==> neighbors != [] && old(store.heap.free) == 0
    ensures RecordAt(store.heap, address).Some? && old(store.heap.pins) <= store.heap.pins
    ensures forall c :: c in store.heap.table ==> c in old(store.heap.table) || c == old(store.heap.nextCid)
    ensures RecordAt(store.heap, address).value.depth == old(RecordAt(store.heap, address)).value.depth
    ensures r.Ok? ==> LinksTo(store.heap, RecordAt(store.heap, address).value, neighbors, emptyAddress)
    ensures r.Ok? && neighbors == [] ==> store.heap.pins == old(store.heap.pins) && store.heap.free == old(store.heap.free)
    ensures r.Err? ==> store.heap.pins == old(store.heap.pins) && store.heap.nextCid == old(store.heap.nextCid)
    ensures r.Ok? && neighbors != [] ==>
      store.heap.pins == old(store.heap.pins) + multiset{old(store.heap.nextCid)} &&
      store.heap.free == old(store.heap.free) - 1 &&
      RecordAt(store.heap, address).value.neighborsCid == old(store.heap.nextCid)
  {
    store.WriteField(address, OFFSET_NEIGHBORS_LENGTH, |neighbors|);
    if |neighbors| == 0 {
      store.WriteField(address, OFFSET_NEIGHBORS_CID, INVALID_ID);
      store.WriteField(address, OFFSET_NEIGHBORS_ADDR, emptyAddress);
      return Ok(());
    }
    ghost var h1 := store.heap;
    var newCid := store.CreateLongs(|neighbors|);
    if |newCid| != 1 {
      return Err(CreateFailed);
    }
    AllocFacts(h1, Longs(seq(|neighbors|, _ => 0)));
    store.WriteField(address, OFFSET_NEIGHBORS_CID, newCid[0]);
    var address2 := store.Pin(newCid[0]);
    store.WriteField(address, OFFSET_NEIGHBORS_ADDR, address2);
    store.WriteLongArray(address2, neighbors);
    return Ok(());
  }

  /**
   * One step of every vertex copy: pin the record of `cids[i]`, write the depth of `vs[i]`, then
   * its neighbours. The vertices copied before, into other records, stay stored.
   */
  method CopyVertex(store: ChunkStore, cids: seq<int>, vs: seq<VertexValue>, i: nat, emptyAddress: int)
    returns (r: Result<(), Exception>)
    requires Valid(store.heap) && |cids| == |vs| && i < |cids| && RecordOf(store.heap, cids[i]).Some?
    requires forall j :: 0 <= j < i ==>
      StoresVertex(store.heap, cids[j], vs[j], emptyAddress) && store.heap.table[cids[j]] != store.heap.table[cids[i]]
    modifies store
    ensures Valid(store.heap) && ChangesOnly(old(store.heap), store.heap, old(store.heap.table[cids[i]]))
    ensures r.Err? <==> vs[i].neighbors != [] && old(store.heap.free) == 0
    ensures r.Ok? ==> forall j :: 0 <= j <= i ==> StoresVertex(store.heap, cids[j], vs[j], emptyAddress)
    ensures r.Ok? ==> store.heap.free == old(store.heap.free) - (if vs[i].neighbors == [] then 0 else 1)
    ensures multiset{cids[i]} <= store.heap.pins && old(store.heap.pins) <= store.heap.pins
    ensures store.heap.pins == old(store.heap.pins) + multiset{cids[i]} +
      (if r.Ok? && vs[i].neighbors != [] then multiset{old(store.heap.nextCid)} else multiset{})
  {
    ghost var h0 := store.heap;
    var address := store.Pin(cids[i]);
    store.WriteField(address, OFFSET_DEPTH, vs[i].depth);
    r := WriteNeighbors(store, address, vs[i].neighbors, emptyAddress);
    if r.Ok? {
      forall j | 0 <= j < i
        ensures StoresVertex(store.heap, cids[j], vs[j], emptyAddress)
      {
        StoresKept(h0, store.heap, address, cids[j], vs[j], emptyAddress);
      }
    }
  }

  /**
   * `create(Vertex)`: a new record holding the vertex, with the invalid address when it has
   * no neighbours; the record is unpinned again, a neighbour chunk stays pinned. When the
   * neighbour chunk cannot be created it throws with the new record still pinned.
   */
  method CreateFrom(store: ChunkStore, v: VertexValue) returns (r: Result<int, Exception>)
    requires Valid(store.heap)
    modifies store
    ensures Valid(store.heap) && Extends(old(store.heap), store.heap)
    ensures r.Err? <==> old(store.heap.free) < 1 + WithNeighbors([v])
    ensures r.Ok? ==> (r.value == old(store.heap.nextCid) && r.value !in old(store.heap.table) &&
      StoresVertex(store.heap, r.value, v, store.invalidAddress))
    ensures r.Ok? ==>
      store.heap.pins == old(store.heap.pins) + (if v.neighbors == [] then multiset{} else multiset{old(store.heap.nextCid) + 1})
    ensures r.Err? && old(store.heap.free) == 0 ==> store.heap.pins == old(store.heap.pins)
    ensures r.Err? && old(store.heap.free) > 0 ==>
      store.heap.pins == old(store.heap.pins) + multiset{old(store.heap.nextCid)}
  {
    ghost var h0 := store.heap;
    var cid := store.CreateRecords(1);
    if |cid| != 1 {
      return Err(CreateFailed);
    }
    assert AllocMany(h0, ZERO_RECORD, 1) == Alloc(h0, ZERO_RECORD);
    AllocFacts(h0, ZERO_RECORD);
    var written := CopyVertex(store, cid, [v], 0, store.invalidAddress);
    if written.Err? {
      return Err(CreateFailed);
    }
    StoresIgnoresPins(store.heap, store.heap.pins - multiset{cid[0]}, cid[0], v, store.invalidAddress);
    store.UnpinCid(cid[0]);
    return Ok(cid[0]);
  }

  /**
   * What copying leaves untouched: the store stays valid, chunk ids keep their addresses, and
   * memory outside the `n` records from `base` on keeps its contents.
   */
  ghost predicate Framed(h0: Heap, h: Heap, base: int, n: nat) {
    Valid(h) &&
    (forall c :: c in h0.table ==> c in h.table && h.table[c] == h0.table[c]) &&
    (forall x :: x in h0.memory && !(base <= x < base + n) ==> x in h.memory && h.memory[x] == h0.memory[x])
  }

  /**
   * Progress of the copy loop after `i` turns: the first `i` records hold their vertices (and,
   * when records stay pinned, are pinned), the rest are still unwritten, and one neighbour chunk
   * has been used up per copied vertex with neighbours.
   */
  ghost predicate Copying(h0: Heap, h: Heap, cids: seq<int>, vs: seq<VertexValue>, base: int, i: nat, unpin: bool) {
    |cids| == |vs| && i <= |cids| && Framed(h0, h, base, |cids|) &&
    (forall j :: 0 <= j < |cids| ==> cids[j] in h.table && h.table[cids[j]] == base + j) &&
    (forall j :: i <= j < |cids| ==> RecordOf(h, cids[j]) == Some(ZERO_RECORD)) &&
    (forall j :: 0 <= j < i ==> StoresVertex(h, cids[j], vs[j], 0)) &&
    h.free + WithNeighbors(vs[..i]) == h0.free &&
    (!unpin ==> forall j :: 0 <= j < i ==> cids[j] in h.pins)
  }

  /** After the `i`th record is written (and nothing else), the loop has made one more turn. */
  lemma CopyingStep(h0: Heap, h: Heap, h1: Heap, cids: seq<int>, vs: seq<VertexValue>, base: int, i: nat, unpin: bool)
    requires i < |cids| && Copying(h0, h, cids, vs, base, i, unpin)
    requires Valid(h1) && ChangesOnly(h, h1, base + i)
    requires forall j :: 0 <= j <= i ==> StoresVertex(h1, cids[j], vs[j], 0)
    requires h1.free + (if vs[i].neighbors == [] then 0 else 1) == h.free
    requires h.pins <= h1.pins && cids[i] in h1.pins
    ensures Copying(h0, h1, cids, vs, base, i + 1, unpin)
  {
    assert vs[..i + 1][..i] == vs[..i];
    assert WithNeighbors(vs[..i + 1]) == WithNeighbors(vs[..i]) + (if vs[i].neighbors == [] then 0 else 1);
    forall j | i < j < |cids|
      ensures RecordOf(h1, cids[j]) == Some(ZERO_RECORD)
    {
      assert h.table[cids[j]] == base + j;
    }
  }

  /** Unpinning changes nothing the copy loop keeps track of, when records are to be unpinned. */
  lemma CopyingIgnoresPins(h0: Heap, h: Heap, cids: seq<int>, vs: seq<VertexValue>, base: int, i: nat, pins: multiset<int>)
    requires Copying(h0, h, cids, vs, base, i, true)
    ensures Copying(h0, h.(pins := pins), cids, vs, base, i, true)
  {
    forall j | 0 <= j < i
      ensures StoresVertex(h.(pins := pins), cids[j], vs[j], 0)
    {
      StoresIgnoresPins(h, pins, cids[j], vs[j], 0);
    }
    assert forall j :: i <= j < |cids| ==> RecordOf(h.(pins := pins), cids[j]) == RecordOf(h, cids[j]);
  }

  /** One turn of the copy loop: record `cids[i]` receives `vs[i]`, and is unpinned when `unpin`. */
  method CopyStep(store: ChunkStore, cids: seq<int>, vs: seq<VertexValue>, unpin: bool,
                  ghost base: int, ghost h0: Heap, i: nat)
    returns (r: Result<(), Exception>)
    requires i < |cids| && Copying(h0, store.heap, cids, vs, base, i, unpin)
    modifies store
    ensures Framed(h0, store.heap, base, |cids|)
    ensures r.Ok? ==> Copying(h0, store.heap, cids, vs, base, i + 1, unpin)
    ensures r.Err? ==> h0.free < WithNeighbors(vs)
  {
    ghost var h := store.heap;
    assert vs[..i + 1][..i] == vs[..i];
    WithNeighborsPrefix(vs, i + 1);
    r := CopyVertex(store, cids, vs, i, 0);
    if r.Err? {
      return;
    }
    CopyingStep(h0, h, store.heap, cids, vs, base, i, unpin);
    if unpin {
      CopyingIgnoresPins(h0, store.heap, cids, vs, base, i + 1, store.heap.pins - multiset{cids[i]});
      store.UnpinCid(cids[i]);
    }
  }

  /**
   * The loop `create(Vertex[])` and `createReserved` share: record `cids[j]`, at address
   * `base + j` and not yet written, receives `vs[j]`, with address 0 for no neighbours;
   * `create(Vertex[])` unpins each record again, `createReserved` leaves it pinned.
   */
  method CopyAll(store: ChunkStore, cids: seq<int>, vs: seq<VertexValue>, unpin: bool, ghost base: int)
    returns (r: Result<(), Exception>)
    requires Valid(store.heap) && |cids| == |vs|
    requires forall j :: 0 <= j < |cids| ==>
      cids[j] in store.heap.table && store.heap.table[cids[j]] == base + j && RecordOf(store.heap, cids[j]) == Some(ZERO_RECORD)
    modifies store
    ensures Framed(old(store.heap), store.heap, base, |cids|)
    ensures r.Err? <==> old(store.heap.free) < WithNeighbors(vs)
    ensures r.Ok? ==> forall j :: 0 <= j < |cids| ==> StoresVertex(store.heap, cids[j], vs[j], 0)
    ensures !unpin ==> forall j :: 0 <= j < |cids| && r.Ok? ==> cids[j] in store.heap.pins
  {
    ghost var h0 := store.heap;
    assert vs[..0] == [];
    var i := 0;
    while i < |cids|
      invariant Copying(h0, store.heap, cids, vs, base, i, unpin)
    {
      var copied := CopyStep(store, cids, vs, unpin, base, h0, i);
      if copied.Err? {
        return Err(CreateFailed);
      }
      i := i + 1;
    }
    assert vs[..i] == vs;
    return Ok(());
  }

  /**
   * `create(Vertex[])`: one new record per vertex, created together, then each filled with its
   * vertex (address 0 for no neighbours) and unpinned. Too few free chunks fail the creation,
   * leaving the store as it was, or a later neighbour chunk, leaving the records made so far.
   */
  method CreateFromAll(store: ChunkStore, vs: seq<VertexValue>) returns (r: Result<seq<int>, Exception>)
    requires Valid(store.heap)
    modifies store
    ensures Valid(store.heap) && Extends(old(store.heap), store.heap)
    ensures r.Err? <==> old(store.heap.free) < |vs| + WithNeighbors(vs)
    ensures r.Ok? ==> r.value == Ids(old(store.heap.nextCid), |vs|)
    ensures r.Ok? ==> forall j :: 0 <= j < |vs| ==> r.value[j] !in old(store.heap.table) && StoresVertex(store.heap, r.value[j], vs[j], 0)
  {
    ghost var h0 := store.heap;
    var cids := store.CreateRecords(|vs|);
    if |cids| != |vs| {
      return Err(CreateFailed);
    }
    AllocManyFacts(h0, ZERO_RECORD, |vs|);
    var copied := CopyAll(store, cids, vs, true, h0.nextAddress);
    if copied.Err? {
      return Err(CreateFailed);
    }
    return Ok(cids);
  }

  /** A vertex with the id it is to be created under: `getID()` of the source's `Vertex`. */
  datatype Identified = Identified(id: int, value: VertexValue)

  /** The ids of the vertices, in order. */
  function IdsOf(ivs: seq<Identified>): (r: seq<int>)
    ensures |r| == |ivs| && forall j :: 0 <= j < |ivs| ==> r[j] == ivs[j].id
  {
    seq(|ivs|, j requires 0 <= j < |ivs| => ivs[j].id)
  }

  /** The vertices without their ids, in order. */
  function ValuesOf(ivs: seq<Identified>): (r: seq<VertexValue>)
    ensures |r| == |ivs| && forall j :: 0 <= j < |ivs| ==> r[j] == ivs[j].value
  {
    seq(|ivs|, j requires 0 <= j < |ivs| => ivs[j].value)
  }

  /**
   * `createReserved(Vertex[])`: a record under each vertex's own id, created together, then
   * each filled with its vertex (address 0 for no neighbours) and left pinned.
   */
  method CreateReserved(store: ChunkStore, ivs: seq<Identified>) returns (r: Result<seq<int>, Exception>)
    requires Valid(store.heap)
    modifies store
    ensures Valid(store.heap) && Extends(old(store.heap), store.heap)
    ensures r.Err? <==> !Reservable(old(store.heap), IdsOf(ivs)) || old(store.heap.free) < |ivs| + WithNeighbors(ValuesOf(ivs))
    ensures r.Ok? ==> r.value == IdsOf(ivs)
    ensures r.Ok? ==> forall j :: 0 <= j < |ivs| ==>
      StoresVertex(store.heap, ivs[j].id, ivs[j].value, 0) && ivs[j].id in store.heap.pins
  {
    ghost var h0 := store.heap;
    var cids := IdsOf(ivs);
    var created := store.CreateReserved(cids);
    if created != |ivs| {
      return Err(CreateFailed);
    }
    assert Reservable(h0, cids);
    ReserveFacts(h0, cids);
    var copied := CopyAll(store, cids, ValuesOf(ivs), false, h0.nextAddress);
    if copied.Err? {
      return Err(CreateFailed);
    }
    return Ok(cids);
  }

  // ---------------------------------------------------------------------------------------
  // Removal

  /**
   * The store after a record's neighbour chunk is dropped the way `remove` does it: when the
   * count is positive, the chunk whose id the neighbour-id field gives is removed, that field
   * read as `readInt` reads it (`wide` false, as written) or as the long it is (`wide` true).
   */
  function Unlinked(h: Heap, cid: int, wide: bool): Heap
    requires RecordOf(h, cid).Some?
  {
    var r := RecordOf(h, cid).value;
    if r.length > 0 then Removed(h, if wide then r.neighborsCid else IntField(r, OFFSET_NEIGHBORS_CID)).0 else h
  }

  /** The store and the outcome of `remove(cid)`: neighbour chunk first, then the record itself. */
  function Erased(h: Heap, cid: int, wide: bool): (Heap, Result<(), Exception>)
    requires RecordOf(h, cid).Some?
  {
    var h1 := Unlinked(h, cid, wide);
    if cid in h1.table then (Removed(h1, cid).0, Ok(())) else (h1, Err(RemoveFailed))
  }

  /** Pin the record, drop its neighbour chunk, unpin: the part of `remove` before the record goes. */
  method Unlink(store: ChunkStore, cid: int, wide: bool)
    requires RecordOf(store.heap, cid).Some?
    modifies store
    ensures store.heap == Unlinked(old(store.heap), cid, wide)
  {
    ghost var h0 := store.heap;
    var address := store.Pin(cid);
    var neighborsLength := store.ReadInt(address, OFFSET_NEIGHBORS_LENGTH);
    if neighborsLength > 0 {
      var neighborsCid;
      if wide {
        neighborsCid := store.ReadLong(address, OFFSET_NEIGHBORS_CID);
      } else {
        neighborsCid := store.ReadInt(address, OFFSET_NEIGHBORS_CID);
      }
      var _ := store.Remove(neighborsCid);
    }
    store.UnpinCid(cid);
    assert store.heap.pins == h0.pins;
  }

  /**
   * `remove(cid)` as written: the neighbour id is read with `readInt`, so only its low 32 bits
   * (sign-extended) name the chunk removed; then the record is removed, and it is an error if
   * it was not there any more.
   */
  method Remove(store: ChunkStore, cid: int) returns (r: Result<(), Exception>)
    requires RecordOf(store.heap, cid).Some?
    modifies store
    ensures (store.heap, r) == Erased(old(store.heap), cid, false)
  {
    Unlink(store, cid, false);
    var removed := store.Remove(cid);
    if removed != 1 {
      return Err(RemoveFailed);
    }
    return Ok(());
  }

  /** `remove(cid)` corrected: the neighbour id is read as the long it is. */
  method RemoveFixed(store: ChunkStore, cid: int) returns (r: Result<(), Exception>)
    requires RecordOf(store.heap, cid).Some?
    modifies store
    ensures (store.heap, r) == Erased(old(store.heap), cid, true)
  {
    Unlink(store, cid, true);
    var removed := store.Remove(cid);
    if removed != 1 {
      return Err(RemoveFailed);
    }
    return Ok(());
  }

  /**
   * Corrected removal of a stored vertex whose neighbour chunk is a different chunk: it
   * succeeds, both the record and the neighbour chunk are gone, and every other chunk keeps its
   * address and contents.
   */
  lemma RemoveFixedErases(h: Heap, cid: int, v: VertexValue, emptyAddress: int)
    requires StoresVertex(h, cid, v, emptyAddress)
    requires v.neighbors != [] ==> RecordOf(h, cid).value.neighborsCid != cid
    ensures Erased(h, cid, true).1 == Ok(())
    ensures cid !in Erased(h, cid, true).0.table
    ensures v.neighbors != [] ==> RecordOf(h, cid).value.neighborsCid !in Erased(h, cid, true).0.table
    ensures forall c :: c in h.table && c != cid && (v.neighbors != [] ==> c != RecordOf(h, cid).value.neighborsCid) ==>
      c in Erased(h, cid, true).0.table && Erased(h, cid, true).0.table[c] == h.table[c]
    ensures forall x :: x in h.memory && x != h.table[cid] && (v.neighbors != [] ==> x != RecordOf(h, cid).value.neighborsAddr) ==>
      x in Erased(h, cid, true).0.memory && Erased(h, cid, true).0.memory[x] == h.memory[x]
  {
  }

  /**
   * Removal as written, of a stored vertex whose neighbour id does not fit in 32 bits and whose
   * low half names no chunk: it succeeds, yet the neighbour chunk stays, with its contents.
   */
  lemma RemoveLeaksWideNeighbors(h: Heap, cid: int, v: VertexValue, emptyAddress: int)
    requires StoresVertex(h, cid, v, emptyAddress) && v.neighbors != []
    requires !IsInt(RecordOf(h, cid).value.neighborsCid)
    requires WrapInt(RecordOf(h, cid).value.neighborsCid) !in h.table
    ensures Erased(h, cid, false).1 == Ok(())
    ensures var n := RecordOf(h, cid).value.neighborsCid;
      n in Erased(h, cid, false).0.table && Erased(h, cid, false).0.table[n] == h.table[n] &&
      Erased(h, cid, false).0.memory[h.table[n]] == Longs(v.neighbors)
  {
    var r := RecordOf(h, cid).value;
    assert r.neighborsCid != cid by {
      assert h.memory[h.table[r.neighborsCid]].Longs?;
    }
    assert h.table[cid] != h.table[r.neighborsCid];
  }

  /**
   * A chunk id with a node id in its top 16 bits does not fit in 32 bits: node 1's local chunk 2,
   * read with `readInt`, becomes chunk id 2.
   */
  lemma WideIdLosesNode()
    ensures !IsInt(0x0001_0000_0000_0002) && WrapInt(0x0001_0000_0000_0002) == 2
  {
  }

  /**
   * The store after `remove(cids)` unlinks each record in turn, as written; none when some
   * record is gone by its turn (an earlier removal took it).
   */
  function UnlinkedAll(h: Heap, cids: seq<int>): Option<Heap>
    decreases |cids|
  {
    if cids == [] then Some(h)
    else if RecordOf(h, cids[0]).Some? then UnlinkedAll(Unlinked(h, cids[0], false), cids[1..])
    else None
  }

  /**
   * `remove(cids)`: each record pinned, its neighbour chunk dropped (with `readInt`, as in
   * `remove(cid)`) and unpinned; then all records are removed together, and it is an error when
   * fewer than all were removed.
   */
  method RemoveAll(store: ChunkStore, cids: seq<int>) returns (r: Result<(), Exception>)
    requires UnlinkedAll(store.heap, cids).Some?
    modifies store
    ensures var removed := RemovedAll(UnlinkedAll(old(store.heap), cids).value, cids);
      store.heap == removed.0 && (r.Err? <==> removed.1 != |cids|)
  {
    ghost var h0 := store.heap;
    var i := 0;
    while i < |cids|
      invariant 0 <= i <= |cids| && UnlinkedAll(store.heap, cids[i..]) == UnlinkedAll(h0, cids)
    {
      assert cids[i..][1..] == cids[i + 1..];
      Unlink(store, cids[i], false);
      i := i + 1;
    }
    assert cids[i..] == [];
    var removed := store.RemoveAll(cids);
    if removed != |cids| {
      return Err(RemoveFailed);
    }
    return Ok(());
  }

  // ---------------------------------------------------------------------------------------
  // Reading and writing a vertex by chunk id

  /** `getDepth(cid)`: the depth field, found through `translate` without pinning. */
  method GetDepth(store: ChunkStore, cid: int) returns (depth: int)
    requires RecordOf(store.heap, cid).Some?
    ensures depth == RecordOf(store.heap, cid).value.depth
  {
    var address := store.Translate(cid);
    depth := store.ReadInt(address, OFFSET_DEPTH);
  }

  /** The store with the depth of `cid`'s record set. */
  function WithDepth(h: Heap, cid: int, depth: int): Heap
    requires RecordOf(h, cid).Some?
  {
    h.(memory := h.memory[h.table[cid] := RecordOf(h, cid).value.(depth := depth)])
  }

  /** Setting the depth is read back, and leaves the neighbours of every record as they were. */
  lemma WithDepthReads(h: Heap, cid: int, depth: int, other: int)
    requires RecordOf(h, cid).Some?
    ensures RecordOf(WithDepth(h, cid, depth), cid).value.depth == depth
    ensures NeighborsOf(WithDepth(h, cid, depth), other) == NeighborsOf(h, other)
  {
  }

  /** `setDepth(cid, depth)`: writes the depth field, found through `translate`. */
  method SetDepth(store: ChunkStore, cid: int, depth: int)
    requires RecordOf(store.heap, cid).Some?
    modifies store
    ensures store.heap == WithDepth(old(store.heap), cid, depth)
  {
    var address := store.Translate(cid);
    store.WriteField(address, OFFSET_DEPTH, depth);
  }

  /** `getNeighborsLength(cid)`: the count field. */
  method GetNeighborsLength(store: ChunkStore, cid: int) returns (length: int)
    requires RecordOf(store.heap, cid).Some?
    ensures length == RecordOf(store.heap, cid).value.length
  {
    var address := store.Translate(cid);
    length := store.ReadInt(address, OFFSET_NEIGHBORS_LENGTH);
  }

  /** Reads the neighbours through the record at `address`: the count, then as many longs. */
  method ReadNeighbors(store: ChunkStore, address: int) returns (neighbors: seq<int>)
    requires NeighborsAt(store.heap, address).Some?
    ensures NeighborsAt(store.heap, address) == Some(neighbors)
  {
    var count := store.ReadInt(address, OFFSET_NEIGHBORS_LENGTH);
    if count == 0 {
      return [];
    }
    var address2 := store.ReadLong(address, OFFSET_NEIGHBORS_ADDR);
    neighbors := store.ReadLongArray(address2, count);
  }

  /** `getNeighbors(cid)`: the neighbours, through `translate`. */
  method GetNeighbors(store: ChunkStore, cid: int) returns (neighbors: seq<int>)
    requires NeighborsOf(store.heap, cid).Some?
    ensures NeighborsOf(store.heap, cid) == Some(neighbors)
  {
    var address := store.Translate(cid);
    neighbors := ReadNeighbors(store, address);
  }

  /**
   * The part of `setNeighbors` both versions share, on the record at `address` (chunk `cid`):
   * the old neighbour chunk is unpinned and removed, whatever the count (with no neighbours its
   * id is the invalid id, which names no chunk), then the new neighbours are written with the
   * invalid address for none. The old neighbour chunk must not share the record's address.
   */
  method ReplaceNeighbors(store: ChunkStore, address: int, neighbors: seq<int>, ghost cid: int)
    returns (r: Result<(), Exception>)
    requires Valid(store.heap) && cid in store.heap.table && store.heap.table[cid] == address
    requires RecordAt(store.heap, address).Some?
    requires var n := RecordAt(store.heap, address).value.neighborsCid;
      n in store.heap.table ==> store.heap.table[n] != address
    modifies store
    ensures var n := old(RecordAt(store.heap, address)).value.neighborsCid;
      Valid(store.heap) && ChangesOnly(Removed(old(store.heap), n).0, store.heap, address) &&
      (n in old(store.heap.table) ==> n !in store.heap.table)
    ensures r.Err? <==> neighbors != [] && old(store.heap.free) == 0
    ensures r.Ok? ==> StoresVertex(store.heap, cid, VertexValue(old(RecordAt(store.heap, address)).value.depth, neighbors),
                                   store.invalidAddress)
    ensures var n := old(RecordAt(store.heap, address)).value.neighborsCid;
      store.heap.pins == old(store.heap.pins) - multiset{n} +
        (if r.Ok? && neighbors != [] then multiset{old(store.heap.nextCid)} else multiset{})
  {
    ghost var h0 := store.heap;
    ghost var rec := RecordAt(store.heap, address).value;
    var oldCid := store.ReadLong(address, OFFSET_NEIGHBORS_CID);
    store.UnpinCid(oldCid);
    var _ := store.Remove(oldCid);
    ghost var h1 := store.heap;
    assert cid in h1.table && RecordAt(h1, address) == Some(rec);
    assert Valid(h1);
    r := WriteNeighbors(store, address, neighbors, store.invalidAddress);
    assert oldCid in h0.table ==> oldCid < h1.nextCid;
  }

  /**
   * `setNeighbors(cid, neighbors)`: the record pinned, its neighbours replaced, unpinned. Once
   * it succeeds, `getNeighbors(cid)` returns the new neighbours and the depth is kept; when the
   * new neighbour chunk cannot be created it throws before the unpin, so the record stays pinned.
   */
  method SetNeighbors(store: ChunkStore, cid: int, neighbors: seq<int>) returns (r: Result<(), Exception>)
    requires Valid(store.heap) && RecordOf(store.heap, cid).Some?
    requires var n := RecordOf(store.heap, cid).value.neighborsCid;
      n in store.heap.table ==> store.heap.table[n] != store.heap.table[cid]
    modifies store
    ensures var n := old(RecordOf(store.heap, cid)).value.neighborsCid;
      Valid(store.heap) && ChangesOnly(Removed(old(store.heap), n).0, store.heap, old(store.heap.table[cid])) &&
      (n in old(store.heap.table) ==> n !in store.heap.table)
    ensures r.Err? <==> neighbors != [] && old(store.heap.free) == 0
    ensures r.Ok? ==> (NeighborsOf(store.heap, cid) == Some(neighbors) &&
      RecordOf(store.heap, cid).value.depth == old(RecordOf(store.heap, cid)).value.depth)
    ensures var n := old(RecordOf(store.heap, cid)).value.neighborsCid;
      r.Err? ==> store.heap.pins == old(store.heap.pins) + multiset{cid} - multiset{n}
    ensures var n := old(RecordOf(store.heap, cid)).value.neighborsCid;
      r.Ok? ==>
        store.heap.pins == old(store.heap.pins) + multiset{cid} - multiset{n} +
                           (if neighbors != [] then multiset{old(store.heap.nextCid)} else multiset{}) - multiset{cid}
  {
    var address := store.Pin(cid);
    r := ReplaceNeighbors(store, address, neighbors, cid);
    if r.Err? {
      return;  // the exception leaves the record pinned
    }
    ghost var h := store.heap;
    store.UnpinCid(cid);
    if r.Ok? {
      StoredReadsBack(h, cid, VertexValue(RecordOf(h, cid).value.depth, neighbors), store.invalidAddress);
      assert NeighborsOf(store.heap, cid) == NeighborsOf(h, cid);
    }
  }

  // ---------------------------------------------------------------------------------------
  // The services and the instance view

  /** The static state `init` fills in: whether it ran, and the chunk services it looked up. */
  class Services {
    var initialized: bool
    var store: ChunkStore?

    constructor ()
      ensures !initialized && store == null
    {
      initialized := false;
      store := null;
    }

    /** `init`: the first call looks the services up; later calls change nothing. */
    method Init(provided: ChunkStore)
      modifies this
      ensures old(initialized) ==> initialized && store == old(store)
      ensures !old(initialized) ==> initialized && store == provided
    {
      if !initialized {
        store := provided;
        initialized := true;
      }
    }

    /** `use(cid)`: before `init` an error; afterwards the record pinned and wrapped with its address. */
    method Use(cid: int) returns (r: Result<DirectVertex, Exception>)
      requires initialized ==> store != null && cid in store.heap.table
      modifies store
      ensures !initialized ==> r == Err(NotInitialized)
      ensures initialized ==> (r.Ok? && fresh(r.value) && r.value.cid == cid &&
        store.heap == old(store.heap).(pins := old(store.heap.pins) + multiset{cid}) &&
        r.value.address == store.heap.table[cid])
    {
      if !initialized {
        return Err(NotInitialized);
      }
      var address := store.Pin(cid);
      var vertex := new DirectVertex(cid, address);
      return Ok(vertex);
    }
  }

  /** A vertex obtained with `use`: its chunk id and the address it is pinned at. */
  class DirectVertex {
    const cid: int
    const address: int

    constructor (cid: int, address: int)
      ensures this.cid == cid && this.address == address
    {
      this.cid := cid;
      this.address := address;
    }

    /** `getDepth()`: the depth field at the pinned address. */
    method GetDepth(store: ChunkStore) returns (depth: int)
      requires RecordAt(store.heap, address).Some?
      ensures depth == RecordAt(store.heap, address).value.depth
    {
      depth := store.ReadInt(address, OFFSET_DEPTH);
    }

    /** `setDepth(depth)`: writes the depth field at the pinned address. */
    method SetDepth(store: ChunkStore, depth: int)
      requires RecordAt(store.heap, address).Some?
      modifies store
      ensures store.heap == old(store.heap).(memory := old(store.heap.memory)[address := old(RecordAt(store.heap, address)).value.(depth := depth)])
    {
      store.WriteField(address, OFFSET_DEPTH, depth);
    }

    /** `getNeighbors()`: the neighbours through the pinned address. */
    method GetNeighbors(store: ChunkStore) returns (neighbors: seq<int>)
      requires NeighborsAt(store.heap, address).Some?
      ensures NeighborsAt(store.heap, address) == Some(neighbors)
    {
      neighbors := ReadNeighbors(store, address);
    }

    /**
     * `setNeighbors(neighbors)`: as the static version, without pinning again. Once it
     * succeeds, `getNeighbors()` returns the new neighbours. The old neighbour chunk loses
     * its pin and a new one stays pinned.
     */
    method SetNeighbors(store: ChunkStore, neighbors: seq<int>) returns (r: Result<(), Exception>)
      requires Valid(store.heap) && cid in store.heap.table && store.heap.table[cid] == address
      requires RecordAt(store.heap, address).Some?
      requires var n := RecordAt(store.heap, address).value.neighborsCid;
        n in store.heap.table ==> store.heap.table[n] != address
      modifies store
      ensures var n := old(RecordAt(store.heap, address)).value.neighborsCid;
        Valid(store.heap) && ChangesOnly(Removed(old(store.heap), n).0, store.heap, address) &&
        (n in old(store.heap.table) ==> n !in store.heap.table)
      ensures r.Err? <==> neighbors != [] && old(store.heap.free) == 0
      ensures r.Ok? ==> (NeighborsAt(store.heap, address) == Some(neighbors) &&
        RecordAt(store.heap, address).value.depth == old(RecordAt(store.heap, address)).value.depth)
      ensures var n := old(RecordAt(store.heap, address)).value.neighborsCid;
        store.heap.pins == old(store.heap.pins) - multiset{n} +
          (if r.Ok? && neighbors != [] then multiset{old(store.heap.nextCid)} else multiset{})
    {
      r := ReplaceNeighbors(store, address, neighbors, cid);
      if r.Ok? {
        StoredReadsBack(store.heap, cid, VertexValue(RecordAt(store.heap, address).value.depth, neighbors), store.invalidAddress);
      }
    }

    /** `close()`: unpins the chunk by its id. */
    method Close(store: ChunkStore)
      modifies store
      ensures store.heap == old(store.heap).(pins := old(store.heap.pins) - multiset{cid})
    {
      store.UnpinCid(cid);
    }
  }
}
