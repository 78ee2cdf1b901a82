/**
 * `GraphLoadOrderedEdgeListTask`: the task each slave runs to load its partition of a
 * graph kept as a partitioned ordered edge list. It carries five serialised settings,
 * finds its partition's byte range and first vertex id in the partition index, and pulls
 * the partition's vertices from a reader in batches, renames each to a chunk id of this
 * node and stores the batch.
 */
module LoadTask {
  import opened Wrappers
  import opened Numeric
  import opened Serial
  import DataVertex
  import OrderedEdgeList

  datatype Exception = NullPointer | NegativeArraySize

  // ---------------------------------------------------------------------------
  // Settings and their serialisation
  // ---------------------------------------------------------------------------

  /** The five exposed settings; the paths are Java references and may be null. */
  datatype Settings = Settings(vertexPath: Option<string>, edgePath: Option<string>,
                               vertexBatchSize: int, filterDupEdges: bool, filterSelfLoops: bool)

  /** A task made by the default constructor: empty paths, batches of 100, no filtering. */
  const DEFAULT_SETTINGS: Settings := Settings(Some(""), Some(""), 100, false, false)

  /** `exportObject`: both paths, the batch size, then the two filter flags; a null path cannot be written. */
  function Encode(v: Settings): Result<seq<Token>, Exception> {
    if v.vertexPath.None? || v.edgePath.None? then Err(NullPointer)
    else Ok([StrTok(v.vertexPath.value), StrTok(v.edgePath.value), IntTok(v.vertexBatchSize),
             BoolTok(v.filterDupEdges), BoolTok(v.filterSelfLoops)])
  }

  /** `importObject` on a task holding `cur`: each field read in export order, defaulting to its old value. */
  function Decode(ts: seq<Token>, cur: Settings): (Settings, seq<Token>) {
    var (vp, ts1) := ReadString(ts, cur.vertexPath);
    var (ep, ts2) := ReadString(ts1, cur.edgePath);
    var (b, ts3) := ReadInt(ts2, cur.vertexBatchSize);
    var (d, ts4) := ReadBool(ts3, cur.filterDupEdges);
    var (l, ts5) := ReadBool(ts4, cur.filterSelfLoops);
    (Settings(vp, ep, b, d, l), ts5)
  }

  /**
   * `sizeofObject`: the library's size of both paths, an int and two booleans, in `int`
   * arithmetic; a null path throws.
   */
  function SizeOf(rules: SizeRules, v: Settings): Result<int, Exception> {
    if v.vertexPath.None? || v.edgePath.None? then Err(NullPointer)
    else Ok(WrapInt(rules.stringSize(v.vertexPath.value) + rules.stringSize(v.edgePath.value) + 4 + 2 * rules.booleanSize))
  }

  /** Import after export restores all five settings, whatever the task held before. */
  lemma RoundTrip(v: Settings, cur: Settings, rest: seq<Token>)
    requires v.vertexPath.Some? && v.edgePath.Some?
    ensures Encode(v).Ok? && Decode(Encode(v).value + rest, cur) == (v, rest)
  {
  }

  /** The declared size is the size of what export writes, and both fail on a null path. */
  lemma SizeMatchesExport(rules: SizeRules, v: Settings)
    ensures SizeOf(rules, v).Ok? <==> Encode(v).Ok?
    ensures Encode(v).Ok? ==> SizeOf(rules, v).value == WrapInt(StreamSize(rules, Encode(v).value))
    ensures Encode(v).Ok? && IsInt(StreamSize(rules, Encode(v).value)) ==> SizeOf(rules, v).value == StreamSize(rules, Encode(v).value)
  {
    if Encode(v).Ok? {
      var ts := Encode(v).value;
      StreamSizeCons(rules, ts[0], ts[1..]);
      StreamSizeCons(rules, ts[1], ts[2..]);
      StreamSizeCons(rules, ts[2], ts[3..]);
      StreamSizeCons(rules, ts[3], ts[4..]);
      StreamSizeCons(rules, ts[4], ts[5..]);
      assert ts[1..] == [ts[1]] + ts[2..];
      assert ts[2..] == [ts[2]] + ts[3..];
      assert ts[3..] == [ts[3]] + ts[4..];
      assert ts[4..] == [ts[4]] + ts[5..];
      assert ts == [ts[0]] + ts[1..];
    }
  }

  // ---------------------------------------------------------------------------
  // Partition index and the partition of this slave
  // ---------------------------------------------------------------------------

  /** One partition of the index: where its records start in the file and how much it holds. */
  datatype Entry = Entry(partitionId: int, nodeId: int, fileStartOffset: int, vertexCount: int, edgeCount: int)

  /** `GraphPartitionIndex`: `getPartitionIndex(p)` is null for a partition it does not hold. */
  datatype PartitionIndex = PartitionIndex(entries: map<int, Entry>, totalPartitionCount: int)

  /** What the set-up hands to the reader of the partition: its byte range and first vertex id. */
  datatype Partition = Partition(startOffset: int, endOffset: int, startVertexId: int)

  /**
   * The vertex counts of partitions `0 .. k-1` added up; null (a `NullPointerException`)
   * when one of them is missing from the index.
   */
  function PrecedingVertices(index: PartitionIndex, k: nat): (r: Result<int, Exception>)
    ensures r.Err? <==> exists p :: 0 <= p < k && p !in index.entries
    ensures r.Err? ==> r.error == NullPointer
  {
    if k == 0 then Ok(0)
    else match PrecedingVertices(index, k - 1)
      case Err(e) => Err(e)
      case Ok(s) =>
        if k - 1 !in index.entries then Err(NullPointer)
        else Ok(s + index.entries[k - 1].vertexCount)
  }

  /**
   * The byte range and first vertex id of the partition of `slaveId`: null when either file
   * is missing (both are checked); the range runs from the partition's own start offset to
   * the next partition's, or to `Long.MAX_VALUE` for the last partition; the first vertex id
   * counts the vertices of every partition before this one, in 64-bit arithmetic.
   */
  function Setup(vertexFileExists: bool, edgeFileExists: bool, index: PartitionIndex, slaveId: nat)
    : Result<Option<Partition>, Exception>
  {
    if !vertexFileExists || !edgeFileExists then Ok(None)
    else if slaveId !in index.entries then Err(NullPointer)
    else if slaveId + 1 < index.totalPartitionCount && slaveId + 1 !in index.entries then Err(NullPointer)
    else
      var start := index.entries[slaveId].fileStartOffset;
      var end := if slaveId + 1 >= index.totalPartitionCount then LONG_MAX
                 else index.entries[slaveId + 1].fileStartOffset;
      match PrecedingVertices(index, slaveId)
      case Err(e) => Err(e)
      case Ok(s) => Ok(Some(Partition(start, end, WrapLong(s))))
  }

  /**
   * The set-up as written: the loop adds the vertex count of the slave's OWN partition
   * `slaveId` times, giving `slaveId * count(slaveId)` in 64-bit arithmetic.
   */
  function SetupAsWritten(vertexFileExists: bool, edgeFileExists: bool, index: PartitionIndex, slaveId: nat)
    : Result<Option<Partition>, Exception>
  {
    if !vertexFileExists || !edgeFileExists then Ok(None)
    else if slaveId !in index.entries then Err(NullPointer)
    else if slaveId + 1 < index.totalPartitionCount && slaveId + 1 !in index.entries then Err(NullPointer)
    else
      var start := index.entries[slaveId].fileStartOffset;
      var end := if slaveId + 1 >= index.totalPartitionCount then LONG_MAX
                 else index.entries[slaveId + 1].fileStartOffset;
      Ok(Some(Partition(start, end, WrapLong(slaveId * index.entries[slaveId].vertexCount))))
  }

  /**
   * Two partitions of 3 and 5 vertices: as written, slave 1 starts at vertex id 5 (its own
   * count once) instead of 3, the number of vertices in partition 0.
   */
  lemma StartVertexIdCounterexample()
    ensures var index := PartitionIndex(map[0 := Entry(0, 0, 0, 3, 7), 1 := Entry(1, 1, 64, 5, 9)], 2);
            SetupAsWritten(true, true, index, 1) == Ok(Some(Partition(64, LONG_MAX, 5))) &&
            Setup(true, true, index, 1) == Ok(Some(Partition(64, LONG_MAX, 3)))
  {
    var index := PartitionIndex(map[0 := Entry(0, 0, 0, 3, 7), 1 := Entry(1, 1, 64, 5, 9)], 2);
    assert PrecedingVertices(index, 0) == Ok(0);
    assert PrecedingVertices(index, 1) == Ok(3);
  }

  /** With every partition before `k` present and non-negative counts, the sum is not negative. */
  lemma {:induction false} PrecedingVerticesNonNegative(index: PartitionIndex, k: nat)
    requires forall p :: 0 <= p < k ==> p in index.entries && index.entries[p].vertexCount >= 0
    ensures PrecedingVertices(index, k).Ok? && PrecedingVertices(index, k).value >= 0
  {
    if k > 0 {
      PrecedingVerticesNonNegative(index, k - 1);
    }
  }

  /**
   * Consecutive partitions get consecutive vertex id ranges: when every partition of the
   * index is present with a non-negative count and the counts up to `slaveId` fit in a long,
   * the next slave starts exactly `count(slaveId)` ids after this one, where this slave's
   * byte range ends.
   */
  lemma ConsecutivePartitions(index: PartitionIndex, slaveId: nat)
    requires slaveId + 1 < index.totalPartitionCount
    requires forall p :: 0 <= p < index.totalPartitionCount ==> p in index.entries && index.entries[p].vertexCount >= 0
    requires PrecedingVertices(index, slaveId + 1).Ok? && PrecedingVertices(index, slaveId + 1).value <= LONG_MAX
    ensures Setup(true, true, index, slaveId).Ok? && Setup(true, true, index, slaveId).value.Some?
    ensures Setup(true, true, index, slaveId + 1).Ok? && Setup(true, true, index, slaveId + 1).value.Some?
    ensures var here := Setup(true, true, index, slaveId).value.value;
            var next := Setup(true, true, index, slaveId + 1).value.value;
            next.startVertexId == here.startVertexId + index.entries[slaveId].vertexCount &&
            here.endOffset == next.startOffset
  {
    PrecedingVerticesNonNegative(index, slaveId);
    var s := PrecedingVertices(index, slaveId).value;
    assert PrecedingVertices(index, slaveId + 1).value == s + index.entries[slaveId].vertexCount;
    assert WrapLong(s) == s;
  }

  /** With every partition before `k` holding `c` vertices, the preceding count is `k * c`. */
  lemma {:induction false} PrecedingUniform(index: PartitionIndex, k: nat, c: int)
    requires forall p :: 0 <= p < k ==> p in index.entries && index.entries[p].vertexCount == c
    ensures PrecedingVertices(index, k) == Ok(k * c)
  {
    if k > 0 {
      PrecedingUniform(index, k - 1, c);
      assert (k - 1) * c + c == k * c;
    }
  }

  /**
   * The set-up as written and the corrected one fail alike and give the same byte range;
   * when every partition before the slave holds as many vertices as its own, they agree on
   * the first vertex id too, so the defect shows only with partitions of unequal sizes.
   */
  lemma AsWrittenAgreesOnRange(vertexFileExists: bool, edgeFileExists: bool, index: PartitionIndex, slaveId: nat)
    requires forall p :: 0 <= p < slaveId ==> p in index.entries
    ensures SetupAsWritten(vertexFileExists, edgeFileExists, index, slaveId).Ok? <==>
            Setup(vertexFileExists, edgeFileExists, index, slaveId).Ok?
    ensures var w := SetupAsWritten(vertexFileExists, edgeFileExists, index, slaveId);
            var c := Setup(vertexFileExists, edgeFileExists, index, slaveId);
            w.Ok? ==> (w.value.Some? <==> c.value.Some?) &&
                      (w.value.Some? ==> w.value.value.startOffset == c.value.value.startOffset &&
                                         w.value.value.endOffset == c.value.value.endOffset)
    ensures slaveId in index.entries &&
            (forall p :: 0 <= p < slaveId ==> index.entries[p].vertexCount == index.entries[slaveId].vertexCount) ==>
            SetupAsWritten(vertexFileExists, edgeFileExists, index, slaveId) ==
            Setup(vertexFileExists, edgeFileExists, index, slaveId)
  {
    assert PrecedingVertices(index, slaveId).Ok?;
    if slaveId in index.entries &&
       (forall p :: 0 <= p < slaveId ==> index.entries[p].vertexCount == index.entries[slaveId].vertexCount) {
      PrecedingUniform(index, slaveId, index.entries[slaveId].vertexCount);
    }
  }

  // ---------------------------------------------------------------------------
  // Loading the partition in batches
  // ---------------------------------------------------------------------------

  /** A vertex renamed to its chunk id, as the batch hands it to the chunk store. */
  datatype Chunk = Chunk(cid: int, value: DataVertex.VertexValue)

  /**
   * The DXRAM calls the loader makes whose code is not part of this model:
   * `ChunkID.getChunkID(node, localId)`, the index's rebasing of one neighbour id, the
   * success flag of rebasing a neighbour array and the count `put` reports for a batch.
   */
  datatype Services = Services(chunkId: (int, int) -> int, rebaseId: int -> int,
                               rebaseOk: seq<int> -> bool, putCount: seq<Chunk> -> int)

  /** The neighbours after rebasing, in place and so with the same length. */
  function Rebased(s: Services, ns: seq<int>): (r: seq<int>)
    ensures |r| == |ns|
  {
    if ns == [] then [] else Rebased(s, ns[..|ns| - 1]) + [s.rebaseId(ns[|ns| - 1])]
  }

  /**
   * The chunk a vertex of the reader becomes: the chunk id of this node with local id
   * `reader index + 1`, the depth of a new vertex and the rebased neighbours.
   */
  function Renamed(s: Services, nodeId: int, v: OrderedEdgeList.OelVertex): Chunk {
    Chunk(s.chunkId(nodeId, v.id + 1), DataVertex.VertexValue(-1, Rebased(s, v.neighbors)))
  }

  /** The chunks of the first `n` vertices of `vs`. */
  function Renamings(s: Services, nodeId: int, vs: seq<OrderedEdgeList.OelVertex>, n: nat): (cs: seq<Chunk>)
    requires n <= |vs|
    ensures |cs| == n
  {
    if n == 0 then [] else Renamings(s, nodeId, vs, n - 1) + [Renamed(s, nodeId, vs[n - 1])]
  }

  /** Reader ids that index the id table. */
  predicate IdsIn(vs: seq<OrderedEdgeList.OelVertex>, table: seq<int>) {
    forall j :: 0 <= j < |vs| ==> 0 <= vs[j].id < |table|
  }

  /**
   * `VERTEX_ID_TO_CID` after the first `n` vertices of `vs`: each global id `table[v.id]`
   * maps to the vertex's new chunk id.
   */
  function IdMap(s: Services, nodeId: int, table: seq<int>, vs: seq<OrderedEdgeList.OelVertex>, n: nat): map<int, int>
    requires n <= |vs| && IdsIn(vs, table)
  {
    if n == 0 then map[]
    else IdMap(s, nodeId, table, vs, n - 1)[table[vs[n - 1].id] := s.chunkId(nodeId, vs[n - 1].id + 1)]
  }

  /** The neighbours of the first `n` vertices of `vs`, each array counted in full. */
  function EdgeCount(vs: seq<OrderedEdgeList.OelVertex>, n: nat): nat
    requires n <= |vs|
  {
    if n == 0 then 0 else EdgeCount(vs, n - 1) + |vs[n - 1].neighbors|
  }

  /** The chunk store `m` after the chunks `cs` were put one after the other. */
  function Stored(m: map<int, DataVertex.VertexValue>, cs: seq<Chunk>): map<int, DataVertex.VertexValue> {
    if cs == [] then m else Stored(m, cs[..|cs| - 1])[cs[|cs| - 1].cid := cs[|cs| - 1].value]
  }

  /** `cs` cut into batches of `size`, front to back; only the last may be shorter. */
  function Batches(cs: seq<Chunk>, size: nat): seq<seq<Chunk>>
    decreases |cs|
  {
    if cs == [] || size == 0 then []
    else if |cs| <= size then [cs]
    else [cs[..size]] + Batches(cs[size..], size)
  }

  function Concat(bs: seq<seq<Chunk>>): seq<Chunk> {
    if bs == [] then [] else bs[0] + Concat(bs[1..])
  }

  /** The outcome of a load that found its partition entry. */
  datatype Outcome = Outcome(idMap: map<int, int>, chunks: seq<Chunk>, batchSize: nat,
                             verticesLoaded: nat, edgesLoaded: nat, ok: bool)

  /**
   * `loadGraphPartition` on the reader's vertices `supply`: a negative batch size throws
   * when the buffer is made; a missing partition entry returns false (None) before anything
   * changes; otherwise every vertex is loaded, none when the batch size is 0, and the result
   * is true when filtering is on or both totals match the entry.
   */
  function LoadPartition(v: Settings, index: PartitionIndex, slaveId: nat, s: Services,
                         table: seq<int>, supply: seq<OrderedEdgeList.OelVertex>): Result<Option<Outcome>, Exception>
    requires IdsIn(supply, table)
  {
    if v.vertexBatchSize < 0 then Err(NegativeArraySize)
    else if slaveId !in index.entries then Ok(None)
    else
      var e := index.entries[slaveId];
      var loaded := if v.vertexBatchSize == 0 then [] else supply;
      var vertices := |loaded|;
      var edges := EdgeCount(loaded, vertices);
      Ok(Some(Outcome(IdMap(s, e.nodeId, table, loaded, vertices), Renamings(s, e.nodeId, loaded, vertices), v.vertexBatchSize,
                      vertices, edges,
                      v.filterSelfLoops || v.filterDupEdges || (e.vertexCount == vertices && e.edgeCount == edges))))
  }

  // ---------------------------------------------------------------------------
  // What the specification functions promise
  // ---------------------------------------------------------------------------

  /** `n` chunks make up whole batches of `size`, none left over. */
  predicate WholeBatches(n: nat, size: nat)
    decreases n
  {
    n == 0 || (0 < size <= n && WholeBatches(n - size, size))
  }

  /**
   * A batch run appended after whole batches: the batches of `a + b` are those of `a`
   * followed by `b` itself, when `a` is whole batches and `b` fits in one.
   */
  lemma {:induction false} BatchesAppend(a: seq<Chunk>, b: seq<Chunk>, size: nat)
    requires size > 0 && WholeBatches(|a|, size) && 0 < |b| <= size
    ensures Batches(a + b, size) == Batches(a, size) + [b]
    decreases |a|
  {
    if a == [] {
      assert a + b == b;
    } else {
      assert (a + b)[..size] == a[..size];
      assert (a + b)[size..] == a[size..] + b;
      BatchesAppend(a[size..], b, size);
      if |a| == size {
        assert a[size..] == [];
      }
    }
  }

  /**
   * The shape of the batches: each holds between 1 and `size` chunks, every one but the
   * last is full, and together they are `cs` in order.
   */
  lemma {:induction false} BatchesShape(cs: seq<Chunk>, size: nat)
    requires size > 0
    ensures var bs := Batches(cs, size);
            (forall i :: 0 <= i < |bs| ==> 0 < |bs[i]| <= size) &&
            (forall i :: 0 <= i < |bs| - 1 ==> |bs[i]| == size) &&
            Concat(bs) == cs
    decreases |cs|
  {
    if cs != [] && |cs| > size {
      BatchesShape(cs[size..], size);
      var bs := Batches(cs, size);
      assert bs[1..] == Batches(cs[size..], size);
      assert cs == cs[..size] + cs[size..];
    } else if cs != [] {
      assert Concat([cs]) == cs + Concat([]);
    }
  }

  /** Putting `a` then `b` is putting `a + b`. */
  lemma {:induction false} StoredAppend(m: map<int, DataVertex.VertexValue>, a: seq<Chunk>, b: seq<Chunk>)
    ensures Stored(m, a + b) == Stored(Stored(m, a), b)
    decreases |b|
  {
    if b == [] {
      assert a + b == a;
    } else {
      assert (a + b)[..|a + b| - 1] == a + b[..|b| - 1];
      StoredAppend(m, a, b[..|b| - 1]);
    }
  }

  /** After the chunks `cs`, a chunk id holds the value of the last chunk put under it. */
  lemma {:induction false} StoredLastWins(m: map<int, DataVertex.VertexValue>, cs: seq<Chunk>, k: nat)
    requires k < |cs|
    requires forall j :: k < j < |cs| ==> cs[j].cid != cs[k].cid
    ensures cs[k].cid in Stored(m, cs) && Stored(m, cs)[cs[k].cid] == cs[k].value
    decreases |cs|
  {
    if k < |cs| - 1 {
      StoredLastWins(m, cs[..|cs| - 1], k);
    }
  }

  /**
   * The id table after loading: a global id maps to the new chunk id of the last loaded
   * vertex that carries it.
   */
  lemma {:induction false} IdMapLastWins(s: Services, nodeId: int, table: seq<int>,
                                         vs: seq<OrderedEdgeList.OelVertex>, n: nat, k: nat)
    requires IdsIn(vs, table) && k < n <= |vs|
    requires forall j :: k < j < n ==> table[vs[j].id] != table[vs[k].id]
    ensures table[vs[k].id] in IdMap(s, nodeId, table, vs, n)
    ensures IdMap(s, nodeId, table, vs, n)[table[vs[k].id]] == s.chunkId(nodeId, vs[k].id + 1)
    decreases n
  {
    if k < n - 1 {
      IdMapLastWins(s, nodeId, table, vs, n - 1, k);
    }
  }

  /** The keys of the id table are the global ids of the loaded vertices, no others. */
  lemma {:induction false} IdMapKeys(s: Services, nodeId: int, table: seq<int>,
                                     vs: seq<OrderedEdgeList.OelVertex>, n: nat, x: int)
    requires IdsIn(vs, table) && n <= |vs|
    ensures x in IdMap(s, nodeId, table, vs, n) <==> exists j :: 0 <= j < n && table[vs[j].id] == x
    decreases n
  {
    if n > 0 {
      IdMapKeys(s, nodeId, table, vs, n - 1, x);
    }
  }

  /** The neighbours stored in a run of chunks. */
  function StoredEdges(cs: seq<Chunk>): nat {
    if cs == [] then 0 else StoredEdges(cs[..|cs| - 1]) + |cs[|cs| - 1].value.neighbors|
  }

  /**
   * The edge total counts exactly the neighbours that go into the store: no neighbour
   * array is cut short, however long (an array over 134217660 is only warned about).
   */
  lemma {:induction false} EdgesAreStored(s: Services, nodeId: int, vs: seq<OrderedEdgeList.OelVertex>, n: nat)
    requires n <= |vs|
    ensures EdgeCount(vs, n) == StoredEdges(Renamings(s, nodeId, vs, n))
    decreases n
  {
    if n > 0 {
      EdgesAreStored(s, nodeId, vs, n - 1);
      var cs := Renamings(s, nodeId, vs, n);
      assert cs[..n - 1] == Renamings(s, nodeId, vs, n - 1);
    }
  }

  /** Every loaded neighbour array counts in full towards the edge total. */
  lemma {:induction false} EdgeCountBounds(vs: seq<OrderedEdgeList.OelVertex>, n: nat, k: nat)
    requires k < n <= |vs|
    ensures EdgeCount(vs, n) >= |vs[k].neighbors|
    decreases n
  {
    if k < n - 1 {
      EdgeCountBounds(vs, n - 1, k);
    }
  }

  /** A batch of renamed vertices read from position `start` extends the chunks. */
  lemma {:induction false} RenamingsExtend(s: Services, nodeId: int, vs: seq<OrderedEdgeList.OelVertex>,
                                           start: nat, next: nat, batch: seq<Chunk>)
    requires next == start + |batch| <= |vs|
    requires forall j :: 0 <= j < |batch| ==> batch[j] == Renamed(s, nodeId, vs[start + j])
    ensures Renamings(s, nodeId, vs, next) == Renamings(s, nodeId, vs, start) + batch
    decreases |batch|
  {
    if batch != [] {
      var init := batch[..|batch| - 1];
      RenamingsExtend(s, nodeId, vs, start, next - 1, init);
      assert batch == init + [batch[|batch| - 1]];
    }
  }

  /**
   * The count check: with both filters off the load succeeds exactly when the vertex and
   * edge totals equal the partition entry's; with either filter on it always succeeds.
   */
  lemma CountCheck(v: Settings, index: PartitionIndex, slaveId: nat, s: Services,
                   table: seq<int>, supply: seq<OrderedEdgeList.OelVertex>)
    requires IdsIn(supply, table) && v.vertexBatchSize > 0 && slaveId in index.entries
    ensures var r := LoadPartition(v, index, slaveId, s, table, supply);
            var e := index.entries[slaveId];
            r.Ok? && r.value.Some? && r.value.value.verticesLoaded == |supply| &&
            (r.value.value.ok <==>
               v.filterSelfLoops || v.filterDupEdges ||
               (e.vertexCount == |supply| && e.edgeCount == StoredEdges(Renamings(s, e.nodeId, supply, |supply|))))
  {
    EdgesAreStored(s, index.entries[slaveId].nodeId, supply, |supply|);
  }

  // ---------------------------------------------------------------------------
  // The whole task
  // ---------------------------------------------------------------------------

  /** `ChunkID.INVALID_ID`, what the name service returns for an unknown name. */
  const INVALID_CHUNK_ID: int := -1

  /**
   * What the task finds in DXRAM when it runs: its slave id, the chunk id the name service
   * gives for the partition index, the index itself (None when getting it fails), whether
   * the two files exist, and the services the loader calls.
   */
  datatype Context = Context(slaveId: nat, indexChunkId: int, index: Option<PartitionIndex>,
                             vertexFileExists: bool, edgeFileExists: bool, services: Services)

  /**
   * `execute`: -1 without a partition index id, -2 when the index cannot be read, -3 when
   * the partition cannot be set up, -4 when loading fails, 0 otherwise; the exceptions of
   * set-up and loading pass through. `supply` is what the reader of the partition returns.
   */
  function ExecuteOutcome(v: Settings, ctx: Context, table: seq<int>, supply: seq<OrderedEdgeList.OelVertex>)
    : (r: Result<int, Exception>)
    requires IdsIn(supply, table)
    ensures r.Ok? ==> -4 <= r.value <= 0
    ensures r == Ok(0) <==>
              ctx.indexChunkId != INVALID_CHUNK_ID && ctx.index.Some? &&
              v.vertexPath.Some? && v.edgePath.Some? &&
              SetupAsWritten(ctx.vertexFileExists, ctx.edgeFileExists, ctx.index.value, ctx.slaveId).Ok? &&
              SetupAsWritten(ctx.vertexFileExists, ctx.edgeFileExists, ctx.index.value, ctx.slaveId).value.Some? &&
              var l := LoadPartition(v, ctx.index.value, ctx.slaveId, ctx.services, table, supply);
              l.Ok? && l.value.Some? && l.value.value.ok
  {
    if ctx.indexChunkId == INVALID_CHUNK_ID then Ok(-1)
    else if ctx.index.None? then Ok(-2)
    else if v.vertexPath.None? || v.edgePath.None? then Err(NullPointer)
    else
      match SetupAsWritten(ctx.vertexFileExists, ctx.edgeFileExists, ctx.index.value, ctx.slaveId)
      case Err(e) => Err(e)
      case Ok(None) => Ok(-3)
      case Ok(Some(_)) =>
        match LoadPartition(v, ctx.index.value, ctx.slaveId, ctx.services, table, supply)
        case Err(e) => Err(e)
        case Ok(None) => Ok(-4)
        case Ok(Some(o)) => if o.ok then Ok(0) else Ok(-4)
  }

  /** The contents of the static id table, empty while it is null. */
  function TableOf(a: array?<int>): seq<int>
    reads a
  {
    if a == null then [] else a[..]
  }

  /**
   * The local chunk store of this node: the value held under each chunk id, and the
   * batches it was handed, in order.
   */
  class ChunkStore {
    var chunks: map<int, DataVertex.VertexValue>
    var batches: seq<seq<Chunk>>

    constructor ()
      ensures chunks == map[] && batches == []
    {
      chunks := map[];
      batches := [];
    }

    /**
     * `createReservedLocal().create(batch)` followed by `put(batch)`: every chunk is
     * created under its own id and then holds its value, whatever count `put` reports.
     * That count is the service's; the loader only logs it when it differs from the batch
     * size, so a put that stores fewer chunks is not modelled.
     */
    method CreateAndPut(batch: seq<Chunk>, s: Services) returns (count: int)
      modifies this
      ensures chunks == Stored(old(chunks), batch) && batches == old(batches) + [batch]
      ensures count == s.putCount(batch)
    {
      chunks := Stored(chunks, batch);
      batches := batches + [batch];
      count := s.putCount(batch);
    }
  }

  class GraphLoadOrderedEdgeListTask {
    var vertexPath: Option<string>
    var edgePath: Option<string>
    var vertexBatchSize: int
    var filterDupEdges: bool
    var filterSelfLoops: bool

    function Value(): Settings
      reads this
    {
      Settings(vertexPath, edgePath, vertexBatchSize, filterDupEdges, filterSelfLoops)
    }

    constructor ()
      ensures Value() == DEFAULT_SETTINGS
    {
      vertexPath := Some("");
      edgePath := Some("");
      vertexBatchSize := 100;
      filterDupEdges := false;
      filterSelfLoops := false;
    }

    constructor Make(vertexPath: Option<string>, edgePath: Option<string>, vertexBatchSize: int,
                     filterDupEdges: bool, filterSelfLoops: bool)
      ensures Value() == Settings(vertexPath, edgePath, vertexBatchSize, filterDupEdges, filterSelfLoops)
    {
      this.vertexPath := vertexPath;
      this.edgePath := edgePath;
      this.vertexBatchSize := vertexBatchSize;
      this.filterDupEdges := filterDupEdges;
      this.filterSelfLoops := filterSelfLoops;
    }

    method SetLoadVertexBatchSize(n: int)
      modifies this
      ensures Value() == old(Value()).(vertexBatchSize := n)
    {
      vertexBatchSize := n;
    }

    method SetLoadVertexPath(p: Option<string>)
      modifies this
      ensures Value() == old(Value()).(vertexPath := p)
    {
      vertexPath := p;
    }

    method SetLoadEdgePath(p: Option<string>)
      modifies this
      ensures Value() == old(Value()).(edgePath := p)
    {
      edgePath := p;
    }

    method ExportObject(out: seq<Token>) returns (r: Result<seq<Token>, Exception>)
      ensures Encode(Value()).Ok? ==> r == Ok(out + Encode(Value()).value)
      ensures Encode(Value()).Err? ==> r == Err(NullPointer)
    {
      if vertexPath.None? || edgePath.None? {
        return Err(NullPointer);
      }
      r := Ok(out + [StrTok(vertexPath.value), StrTok(edgePath.value), IntTok(vertexBatchSize),
                     BoolTok(filterDupEdges), BoolTok(filterSelfLoops)]);
    }

    method ImportObject(input: seq<Token>) returns (rest: seq<Token>)
      modifies this
      ensures (Value(), rest) == Decode(input, old(Value()))
    {
      var vp, ts1 := ReadString(input, vertexPath).0, ReadString(input, vertexPath).1;
      vertexPath := vp;
      var ep, ts2 := ReadString(ts1, edgePath).0, ReadString(ts1, edgePath).1;
      edgePath := ep;
      var b, ts3 := ReadInt(ts2, vertexBatchSize).0, ReadInt(ts2, vertexBatchSize).1;
      vertexBatchSize := b;
      var d, ts4 := ReadBool(ts3, filterDupEdges).0, ReadBool(ts3, filterDupEdges).1;
      filterDupEdges := d;
      var l, ts5 := ReadBool(ts4, filterSelfLoops).0, ReadBool(ts4, filterSelfLoops).1;
      filterSelfLoops := l;
      rest := ts5;
    }

    method SizeofObject(rules: SizeRules) returns (r: Result<int, Exception>)
      ensures r == SizeOf(rules, Value())
    {
      if vertexPath.None? || edgePath.None? {
        return Err(NullPointer);
      }
      r := Ok(WrapInt(rules.stringSize(vertexPath.value) + rules.stringSize(edgePath.value) + 4 + 2 * rules.booleanSize));
    }

    /**
     * The first-vertex-id loop of the set-up as written: it adds the vertex count of the
     * slave's OWN partition, looked up again on every turn, `slaveId` times to a long.
     */
    static method StartVertexId(index: PartitionIndex, slaveId: nat) returns (r: Result<int, Exception>)
      ensures slaveId == 0 ==> r == Ok(0)
      ensures slaveId > 0 && slaveId !in index.entries ==> r == Err(NullPointer)
      ensures slaveId in index.entries ==> r == Ok(WrapLong(slaveId * index.entries[slaveId].vertexCount))
    {
      var startVertexId := 0;
      var i := 0;
      while i < slaveId
        invariant 0 <= i <= slaveId
        invariant i > 0 ==> slaveId in index.entries
        invariant slaveId in index.entries ==> startVertexId == WrapLong(i * index.entries[slaveId].vertexCount)
        invariant slaveId !in index.entries ==> startVertexId == 0
      {
        if slaveId !in index.entries {
          return Err(NullPointer);
        }
        var count := index.entries[slaveId].vertexCount;
        WrapLongAdd(i * count, count);
        assert (i + 1) * count == i * count + count;
        startVertexId := WrapLong(startVertexId + count);
        i := i + 1;
      }
      r := Ok(startVertexId);
    }

    /**
     * `setupOrderedEdgeListForCurrentSlave` as written: the byte range of the slave's
     * partition and the first vertex id of `StartVertexId`. It returns what it would hand
     * to the reader.
     */
    method SetupOrderedEdgeListForCurrentSlave(vertexFileExists: bool, edgeFileExists: bool,
                                               index: PartitionIndex, slaveId: nat)
      returns (r: Result<Option<Partition>, Exception>)
      ensures r == SetupAsWritten(vertexFileExists, edgeFileExists, index, slaveId)
    {
      if !vertexFileExists || !edgeFileExists {
        return Ok(None);
      }
      if slaveId !in index.entries {
        return Err(NullPointer);
      }
      var startOffset := index.entries[slaveId].fileStartOffset;
      var endOffset;
      if slaveId + 1 >= index.totalPartitionCount {
        endOffset := LONG_MAX;
      } else {
        if slaveId + 1 !in index.entries {
          return Err(NullPointer);
        }
        endOffset := index.entries[slaveId + 1].fileStartOffset;
      }
      var start := StartVertexId(index, slaveId);
      r := Ok(Some(Partition(startOffset, endOffset, start.value)));
    }

    /**
     * `execute`: looks up the partition index, sets up this slave's partition of the
     * ordered edge list and loads it. Nothing changes unless both the index and the
     * partition are found; then `VERTEX_ID_TO_CID` becomes the load's id map and the store
     * holds the load's chunks, handed over in its batches, whether the count check passes (0)
     * or not (-4).
     */
    method Execute(ctx: Context, supply: seq<OrderedEdgeList.OelVertex>,
                   tables: OrderedEdgeList.IdTables, store: ChunkStore)
      returns (r: Result<int, Exception>)
      requires forall j :: 0 <= j < |supply| ==>
                 tables.cidToVertexId != null && 0 <= supply[j].id < tables.cidToVertexId.Length
      modifies tables, store
      ensures tables.cidToVertexId == old(tables.cidToVertexId)
      ensures r == ExecuteOutcome(Value(), ctx, TableOf(tables.cidToVertexId), supply)
      ensures r.Err? || r.value in {-1, -2, -3} ==> unchanged(tables, store)
      ensures r == Ok(0) || r == Ok(-4) ==>
                ctx.index.Some? &&
                var l := LoadPartition(Value(), ctx.index.value, ctx.slaveId, ctx.services, TableOf(tables.cidToVertexId), supply);
                l.Ok? && l.value.Some? &&
                var o := l.value.value;
                tables.vertexIdToCid == o.idMap &&
                store.chunks == Stored(old(store.chunks), o.chunks) &&
                store.batches == old(store.batches) + Batches(o.chunks, o.batchSize)
    {
      if ctx.indexChunkId == INVALID_CHUNK_ID {
        return Ok(-1);
      }
      if ctx.index.None? {
        return Ok(-2);
      }
      if vertexPath.None? || edgePath.None? {
        return Err(NullPointer);  // a File made from a null path
      }
      var index := ctx.index.value;
      var partition := SetupOrderedEdgeListForCurrentSlave(ctx.vertexFileExists, ctx.edgeFileExists, index, ctx.slaveId);
      if partition.Err? {
        return Err(partition.error);
      }
      if partition.value.None? {
        return Ok(-3);
      }
      assert forall j :: 0 <= j < |supply| ==>
               tables.cidToVertexId != null && 0 <= supply[j].id < tables.cidToVertexId.Length;
      var loaded := LoadGraphPartition(index, ctx.slaveId, ctx.services, supply, tables, store);
      if loaded.Err? {
        return Err(loaded.error);
      }
      r := if loaded.value then Ok(0) else Ok(-4);
    }

    /**
     * `loadGraphPartition`: pulls vertices from the reader (`supply`, then null for ever)
     * into a buffer of `vertexBatchSize`, renames each to a chunk id of this node and
     * records its global id in `VERTEX_ID_TO_CID`, stores each batch, and finally checks
     * the totals against the partition entry unless filtering is on.
     */
    method LoadGraphPartition(index: PartitionIndex, slaveId: nat, s: Services,
                              supply: seq<OrderedEdgeList.OelVertex>,
                              tables: OrderedEdgeList.IdTables, store: ChunkStore)
      returns (r: Result<bool, Exception>)
      requires forall j :: 0 <= j < |supply| ==>
                 tables.cidToVertexId != null && 0 <= supply[j].id < tables.cidToVertexId.Length
      modifies tables, store
      ensures tables.cidToVertexId == old(tables.cidToVertexId)
      ensures var l := LoadPartition(Value(), index, slaveId, s, TableOf(tables.cidToVertexId), supply);
              if l.Err? then
                r == Err(l.error) && unchanged(tables, store)
              else if l.value.None? then
                r == Ok(false) && unchanged(tables, store)
              else
                var o := l.value.value;
                r == Ok(o.ok) && tables.vertexIdToCid == o.idMap &&
                store.chunks == Stored(old(store.chunks), o.chunks) &&
                store.batches == old(store.batches) + Batches(o.chunks, o.batchSize)
    {
      if vertexBatchSize < 0 {
        return Err(NegativeArraySize);
      }
      if slaveId !in index.entries {
        return Ok(false);
      }
      var entry := index.entries[slaveId];
      assert forall j :: 0 <= j < |supply| ==> tables.cidToVertexId != null && 0 <= supply[j].id < tables.cidToVertexId.Length;
      var totalVerticesLoaded, totalEdgesLoaded :=
        LoadVertices(supply, vertexBatchSize, tables.cidToVertexId, s, entry.nodeId, tables, store);
      r := Ok(filterSelfLoops || filterDupEdges ||
              (entry.vertexCount == totalVerticesLoaded && entry.edgeCount == totalEdgesLoaded));
    }
  }

  /**
   * The loops of `loadGraphPartition`: a buffer of `size` chunks is made and
   * `VERTEX_ID_TO_CID` cleared, then rounds of reading a batch into the buffer and storing
   * it go on until a round reads nothing. With a buffer of length 0 nothing is ever read;
   * otherwise every vertex of the reader is loaded, in batches of `size`.
   */
  method LoadVertices(supply: seq<OrderedEdgeList.OelVertex>, size: nat, ids: array?<int>,
                      s: Services, nodeId: int, tables: OrderedEdgeList.IdTables, store: ChunkStore)
    returns (vertices: nat, edges: nat)
    requires forall j :: 0 <= j < |supply| ==> ids != null && 0 <= supply[j].id < ids.Length
    modifies tables`vertexIdToCid, store
    ensures vertices == if size == 0 then 0 else |supply|
    ensures edges == EdgeCount(supply, vertices)
    ensures tables.vertexIdToCid == IdMap(s, nodeId, TableOf(ids), supply, vertices)
    ensures store.chunks == Stored(old(store.chunks), Renamings(s, nodeId, supply, vertices))
    ensures store.batches == old(store.batches) + Batches(Renamings(s, nodeId, supply, vertices), size)
  {
    var buf := new Chunk[size](_ => Chunk(INVALID_CHUNK_ID, DataVertex.NEW_VERTEX));
    ghost var table := TableOf(ids);
    ghost var m0, b0 := store.chunks, store.batches;
    vertices, edges := 0, 0;
    tables.vertexIdToCid := map[];
    while true
      invariant vertices <= |supply| && fresh(buf) && table == TableOf(ids)
      invariant buf.Length <= size && (size == 0 ==> vertices == 0)
      invariant (WholeBatches(vertices, size) && buf.Length == size) || vertices == |supply|
      invariant edges == EdgeCount(supply, vertices)
      invariant tables.vertexIdToCid == IdMap(s, nodeId, table, supply, vertices)
      invariant store.chunks == Stored(m0, Renamings(s, nodeId, supply, vertices))
      invariant store.batches == b0 + Batches(Renamings(s, nodeId, supply, vertices), size)
      decreases |supply| - vertices
    {
      var readCount;
      assert forall j :: 0 <= j < |supply| ==> ids != null && 0 <= supply[j].id < ids.Length;
      vertices, readCount, buf, edges := LoadRound(supply, vertices, buf, ids, s, nodeId, tables, store, table, m0, b0, size, edges);
      if readCount == 0 {
        break;
      }
    }
  }

  /**
   * One round of the outer loop of `loadGraphPartition`: a batch is read into the buffer
   * and, unless it is empty, stored. Before the round the store holds the chunks of the
   * vertices before `start`; after it, those before `next`.
   */
  method LoadRound(supply: seq<OrderedEdgeList.OelVertex>, start: nat, buf: array<Chunk>, ids: array?<int>,
                   s: Services, nodeId: int, tables: OrderedEdgeList.IdTables, store: ChunkStore,
                   ghost table: seq<int>, ghost m0: map<int, DataVertex.VertexValue>, ghost b0: seq<seq<Chunk>>,
                   size: nat, edgesBefore: nat)
    returns (next: nat, readCount: nat, kept: array<Chunk>, edges: nat)
    requires start <= |supply| && table == TableOf(ids)
    requires forall j :: 0 <= j < |supply| ==> ids != null && 0 <= supply[j].id < ids.Length
    requires buf.Length <= size && (size == 0 ==> start == 0)
    requires (WholeBatches(start, size) && buf.Length == size) || start == |supply|
    requires tables.vertexIdToCid == IdMap(s, nodeId, table, supply, start) && edgesBefore == EdgeCount(supply, start)
    requires store.chunks == Stored(m0, Renamings(s, nodeId, supply, start))
    requires store.batches == b0 + Batches(Renamings(s, nodeId, supply, start), size)
    modifies buf, tables`vertexIdToCid, store
    ensures kept == buf || fresh(kept)
    ensures next == start + readCount <= |supply| && kept.Length <= size
    ensures readCount == 0 <==> start == |supply| || size == 0
    ensures readCount > 0 ==> (WholeBatches(next, size) && kept.Length == size) || next == |supply|
    ensures tables.vertexIdToCid == IdMap(s, nodeId, table, supply, next) && edges == EdgeCount(supply, next)
    ensures store.chunks == Stored(m0, Renamings(s, nodeId, supply, next))
    ensures store.batches == b0 + Batches(Renamings(s, nodeId, supply, next), size)
  {
    var m;
    next, readCount, m, edges := ReadBatch(supply, start, buf, ids, s, nodeId, tables.vertexIdToCid, edgesBefore);
    tables.vertexIdToCid := m;
    kept := buf;
    if readCount == 0 {
      return;
    }
    ghost var before := buf[..];
    kept := StoreBatch(buf, readCount, store, s);
    ghost var batch := kept[..];
    assert batch == before[..readCount];
    ChunksStep(s, nodeId, supply, start, next, batch, m0, store.chunks);
    LogStep(s, nodeId, supply, start, next, batch, size, b0, store.batches);
  }

  /** The store after one round: it held the chunks before `start` and took the batch. */
  lemma ChunksStep(s: Services, nodeId: int, vs: seq<OrderedEdgeList.OelVertex>, start: nat, next: nat,
                   batch: seq<Chunk>, m0: map<int, DataVertex.VertexValue>, chunks: map<int, DataVertex.VertexValue>)
    requires next == start + |batch| <= |vs|
    requires forall j :: 0 <= j < |batch| ==> batch[j] == Renamed(s, nodeId, vs[start + j])
    requires chunks == Stored(Stored(m0, Renamings(s, nodeId, vs, start)), batch)
    ensures chunks == Stored(m0, Renamings(s, nodeId, vs, next))
  {
    var before, after := Renamings(s, nodeId, vs, start), Renamings(s, nodeId, vs, next);
    RenamingsExtend(s, nodeId, vs, start, next, batch);
    StoredAppend(m0, before, batch);
  }

  /**
   * The log of batches after one round: it held the batches of the chunks before `start`,
   * whole batches, and took one more.
   */
  lemma LogStep(s: Services, nodeId: int, vs: seq<OrderedEdgeList.OelVertex>, start: nat, next: nat,
                batch: seq<Chunk>, size: nat, b0: seq<seq<Chunk>>, batches: seq<seq<Chunk>>)
    requires next == start + |batch| <= |vs| && 0 < |batch| <= size && WholeBatches(start, size)
    requires forall j :: 0 <= j < |batch| ==> batch[j] == Renamed(s, nodeId, vs[start + j])
    requires batches == b0 + Batches(Renamings(s, nodeId, vs, start), size) + [batch]
    ensures batches == b0 + Batches(Renamings(s, nodeId, vs, next), size)
    ensures |batch| == size ==> WholeBatches(next, size)
  {
    var before, after := Renamings(s, nodeId, vs, start), Renamings(s, nodeId, vs, next);
    RenamingsExtend(s, nodeId, vs, start, next, batch);
    BatchesAppend(before, batch, size);
    var log := Batches(before, size);
    assert b0 + log + [batch] == b0 + (log + [batch]);
  }

  /**
   * The end of one round of `loadGraphPartition`: a buffer filled only in part is cut down
   * to the vertices read (the smaller array then stays the buffer), and the batch is
   * created and put in the store.
   */
  method StoreBatch(buffer: array<Chunk>, readCount: nat, store: ChunkStore, s: Services)
    returns (kept: array<Chunk>)
    requires 0 < readCount <= buffer.Length
    modifies store
    ensures kept == buffer || fresh(kept)
    ensures kept[..] == buffer[..readCount]
    ensures store.chunks == Stored(old(store.chunks), kept[..]) && store.batches == old(store.batches) + [kept[..]]
  {
    kept := buffer;
    if readCount < buffer.Length {
      var read := buffer[..readCount];
      kept := new Chunk[readCount](j requires 0 <= j < readCount => read[j]);
    }
    var count := store.CreateAndPut(kept[..], s);  // a count other than readCount is only logged
  }

  /**
   * The inner loop of `loadGraphPartition`: reads up to `buffer.Length` vertices from
   * position `start` of the reader, stopping at the first null; each vertex gets the chunk
   * id of local id `reader index + 1`, its global id `ids[vertex id]` is mapped to that
   * chunk id in `m` at once, its neighbours are rebased and counted, and it goes into the
   * next slot of the buffer.
   */
  method ReadBatch(supply: seq<OrderedEdgeList.OelVertex>, start: nat, buffer: array<Chunk>,
                   ids: array?<int>, s: Services, nodeId: int, m0: map<int, int>, edgesBefore: nat)
    returns (next: nat, readCount: nat, m: map<int, int>, edges: nat)
    requires start <= |supply|
    requires forall j :: 0 <= j < |supply| ==> ids != null && 0 <= supply[j].id < ids.Length
    requires m0 == IdMap(s, nodeId, TableOf(ids), supply, start)
    requires edgesBefore == EdgeCount(supply, start)
    modifies buffer
    ensures next == start + readCount <= |supply|
    ensures readCount == if |supply| - start < buffer.Length then |supply| - start else buffer.Length
    ensures forall j :: 0 <= j < readCount ==> buffer[j] == Renamed(s, nodeId, supply[start + j])
    ensures m == IdMap(s, nodeId, TableOf(ids), supply, next)
    ensures edges == EdgeCount(supply, next)
  {
    ghost var table := TableOf(ids);
    next, readCount, m, edges := start, 0, m0, edgesBefore;
    while readCount < buffer.Length
      invariant 0 <= readCount <= buffer.Length && next == start + readCount <= |supply|
      invariant forall j :: 0 <= j < readCount ==> buffer[j] == Renamed(s, nodeId, supply[start + j])
      invariant edges == EdgeCount(supply, next)
      invariant m == IdMap(s, nodeId, table, supply, next)
    {
      if next == |supply| {
        break;
      }
      var vertex := supply[next];
      next := next + 1;
      var vid := ids[vertex.id];
      var cid := s.chunkId(nodeId, vertex.id + 1);
      m := m[vid := cid];
      var neighbours := Rebased(s, vertex.neighbors);
      var rebased := s.rebaseOk(vertex.neighbors);  // a failed rebase is only logged
      buffer[readCount] := Chunk(cid, DataVertex.VertexValue(-1, neighbours));
      readCount := readCount + 1;
      edges := edges + |neighbours|;
    }
  }
}
