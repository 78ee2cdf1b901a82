/** The BFS-optimised vertex chunk `graph.BFSVertex`: id, depth and neighbour ids, all longs. */
module BfsVertex {
  import opened Wrappers
  import opened Numeric
  import opened Serial

  datatype Exception = NullPointer

  /** The fields of a BFS vertex; `neighbors` is a Java reference and may be null. */
  datatype BfsValue = BfsValue(id: int, depth: int, neighbors: Option<seq<int>>)

  /** A new BFS vertex: id -1, depth -1, neighbours null. */
  const NEW_BFS_VERTEX: BfsValue := BfsValue(-1, -1, None)

  /** `exportObject`: id, depth, then the neighbour array (null cannot be written). */
  function Encode(v: BfsValue): Result<seq<Token>, Exception> {
    if v.neighbors.None? then Err(NullPointer)
    else Ok([LongTok(v.id), LongTok(v.depth), LongArrayTok(v.neighbors.value)])
  }

  /** `importObject` on a vertex holding `cur`: id, depth, neighbours, each read once, in export order. */
  function Decode(ts: seq<Token>, cur: BfsValue): (BfsValue, seq<Token>) {
    var (i, ts1) := ReadLong(ts, cur.id);
    var (d, ts2) := ReadLong(ts1, cur.depth);
    var (n, ts3) := ReadLongArray(ts2, cur.neighbors);
    (BfsValue(i, d, n), ts3)
  }

  /** `sizeofObject`: `Long.BYTES * (2 + neighbors.length)` in int arithmetic; null neighbours throw. */
  function SizeOf(v: BfsValue): Result<int, Exception> {
    if v.neighbors.None? then Err(NullPointer)
    else Ok(WrapInt(8 * (2 + |v.neighbors.value|)))
  }

  /** Import after export restores all three fields, and each from its own token. */
  lemma RoundTrip(v: BfsValue, cur: BfsValue, rest: seq<Token>)
    requires v.neighbors.Some?
    ensures Encode(v).Ok?
    ensures Decode(Encode(v).value + rest, cur) == (v, rest)
  {
  }

  /**
   * The declared size counts 8 bytes per neighbour and no array header, so it equals
   * the size of what export writes exactly when the library's long-array size has
   * no header either.
   */
  lemma SizeVersusExport(rules: SizeRules, v: BfsValue)
    requires v.neighbors.Some? && 8 * (2 + |v.neighbors.value|) <= INT_MAX
    ensures Encode(v).Ok? && SizeOf(v).Ok?
    ensures SizeOf(v).value == StreamSize(rules, Encode(v).value)
            <==> rules.longArraySize(|v.neighbors.value|) == 8 * |v.neighbors.value|
  {
    var a := v.neighbors.value;
    StreamSizeCons(rules, LongTok(v.id), [LongTok(v.depth), LongArrayTok(a)]);
    StreamSizeCons(rules, LongTok(v.depth), [LongArrayTok(a)]);
    StreamSizeCons(rules, LongArrayTok(a), []);
    assert Encode(v).value == [LongTok(v.id)] + ([LongTok(v.depth)] + ([LongArrayTok(a)] + []));
    assert StreamSize(rules, []) == 0;
    assert StreamSize(rules, [LongArrayTok(a)]) == rules.longArraySize(|a|);
    assert StreamSize(rules, [LongTok(v.depth), LongArrayTok(a)]) == 8 + rules.longArraySize(|a|);
    var enc := [LongTok(v.id), LongTok(v.depth), LongArrayTok(a)];
    assert enc == [LongTok(v.id)] + [LongTok(v.depth), LongArrayTok(a)];
    assert StreamSize(rules, enc) == 16 + rules.longArraySize(|a|);
    assert Encode(v).value == enc;
    assert WrapInt(8 * (2 + |a|)) == 16 + 8 * |a|;
  }

  class BFSVertex {
    var id: int
    var depth: int
    var neighbors: array?<int>

    constructor ()
      ensures Value() == NEW_BFS_VERTEX
    {
      id := -1;
      depth := -1;
      neighbors := null;
    }

    ghost function Value(): BfsValue
      reads this, neighbors
    {
      BfsValue(id, depth, if neighbors == null then None else Some(neighbors[..]))
    }

    method SizeofObject() returns (r: Result<int, Exception>)
      ensures r == SizeOf(Value())
    {
      if neighbors == null {
        r := Err(NullPointer);
      } else {
        r := Ok(WrapInt(8 * (2 + neighbors.Length)));
      }
    }

    method ImportObject(input: seq<Token>) returns (rest: seq<Token>)
      modifies this
      ensures (Value(), rest) == Decode(input, old(Value()))
      ensures neighbors == old(neighbors) || fresh(neighbors)
    {
      var ts := input;
      if ts != [] && ts[0].LongTok? {
        id := ts[0].l;
        ts := ts[1..];
      }
      if ts != [] && ts[0].LongTok? {
        depth := ts[0].l;
        ts := ts[1..];
      }
      if ts != [] && ts[0].LongArrayTok? {
        var a := ts[0].a;
        neighbors := new int[|a|](i requires 0 <= i < |a| => a[i]);
        assert neighbors[..] == a;
        ts := ts[1..];
      }
      rest := ts;
    }

    /**
     * `exportObject`: the id, the depth and the neighbours. With null neighbours the source
     * throws after writing the id and the depth; as for every failed export here, the
     * partial stream is not observed and only the error is returned.
     */
    method ExportObject(out: seq<Token>) returns (r: Result<seq<Token>, Exception>)
      ensures Encode(Value()).Ok? ==> r == Ok(out + Encode(Value()).value)
      ensures Encode(Value()).Err? ==> r == Err(NullPointer)
    {
      if neighbors == null {
        r := Err(NullPointer);
      } else {
        r := Ok(out + [LongTok(id), LongTok(depth), LongArrayTok(neighbors[..])]);
      }
    }
  }
}
