/** The vertex chunk `graph.data.Vertex`: a depth and an array of neighbour ids. */
module DataVertex {
  import opened Wrappers
  import opened Numeric
  import opened Serial

  /** `ChunkID.INVALID_ID`, the id an `AbstractChunk` starts with. */
  const INVALID_ID: int := -1

  /** The exported state of a vertex. */
  datatype VertexValue = VertexValue(depth: int, neighbors: seq<int>)

  /** A new vertex: depth -1 ("unvisited") and no neighbours. */
  const NEW_VERTEX: VertexValue := VertexValue(-1, [])

  /** `exportObject`: the depth, then the neighbour array. */
  function Encode(v: VertexValue): seq<Token> {
    [IntTok(v.depth), LongArrayTok(v.neighbors)]
  }

  /** `importObject` on a vertex holding `cur`: reads the depth, then the neighbour array. */
  function Decode(ts: seq<Token>, cur: VertexValue): (VertexValue, seq<Token>) {
    var (d, ts1) := ReadInt(ts, cur.depth);
    var (n, ts2) := ReadLongArray(ts1, Some(cur.neighbors));
    (VertexValue(d, n.value), ts2)
  }

  /** `sizeofObject`: an int for the depth plus the library's size of the long array, in `int` arithmetic. */
  function SizeOf(rules: SizeRules, v: VertexValue): int {
    WrapInt(4 + rules.longArraySize(|v.neighbors|))
  }

  /** Import reads the fields in the order export wrote them, whatever the vertex held before. */
  lemma RoundTrip(v: VertexValue, cur: VertexValue, rest: seq<Token>)
    ensures Decode(Encode(v) + rest, cur) == (v, rest)
  {
  }

  /** The declared size is the size of what export writes, wrapped to an `int`. */
  lemma SizeMatchesExport(rules: SizeRules, v: VertexValue)
    ensures SizeOf(rules, v) == WrapInt(StreamSize(rules, Encode(v)))
    ensures IsInt(StreamSize(rules, Encode(v))) ==> SizeOf(rules, v) == StreamSize(rules, Encode(v))
  {
    StreamSizeCons(rules, IntTok(v.depth), [LongArrayTok(v.neighbors)]);
    StreamSizeCons(rules, LongArrayTok(v.neighbors), []);
  }

  class Vertex {
    var id: int
    var depth: int
    var neighbors: array<int>

    constructor ()
      ensures id == INVALID_ID && fresh(neighbors) && Value() == NEW_VERTEX
    {
      id := INVALID_ID;
      depth := -1;
      neighbors := new int[0];
    }

    ghost function Value(): VertexValue
      reads this, neighbors
    {
      VertexValue(depth, neighbors[..])
    }

    method GetID() returns (r: int)
      ensures r == id
    {
      r := id;
    }

    method SetID(x: int)
      modifies this
      ensures id == x && depth == old(depth) && neighbors == old(neighbors)
    {
      id := x;
    }

    method GetDepth() returns (r: int)
      ensures r == depth
    {
      r := depth;
    }

    method SetDepth(d: int)
      modifies this
      ensures depth == d && id == old(id) && neighbors == old(neighbors)
    {
      depth := d;
    }

    /** The stored array itself, not a copy: writes through it change this vertex. */
    method GetNeighbors() returns (a: array<int>)
      ensures a == neighbors
    {
      a := neighbors;
    }

    /** Stores the caller's array itself, not a copy. */
    method SetNeighbors(a: array<int>)
      modifies this
      ensures neighbors == a && id == old(id) && depth == old(depth)
    {
      neighbors := a;
    }

    method ExportObject(out: seq<Token>) returns (out': seq<Token>)
      ensures out' == out + Encode(Value())
    {
      out' := out + [IntTok(depth), LongArrayTok(neighbors[..])];
    }

    method ImportObject(input: seq<Token>) returns (rest: seq<Token>)
      modifies this
      ensures (Value(), rest) == Decode(input, old(Value()))
      ensures id == old(id)
      ensures neighbors == old(neighbors) || fresh(neighbors)
    {
      var ts := input;
      if ts != [] && ts[0].IntTok? {
        depth := ts[0].i;
        ts := ts[1..];
      }
      if ts != [] && ts[0].LongArrayTok? {
        var a := ts[0].a;
        neighbors := new int[|a|](i requires 0 <= i < |a| => a[i]);
        assert neighbors[..] == a;
        ts := ts[1..];
      }
      rest := ts;
    }

    method SizeofObject(rules: SizeRules) returns (s: int)
      ensures s == WrapInt(StreamSize(rules, Encode(Value())))
    {
      s := WrapInt(4 + rules.longArraySize(neighbors.Length));
      SizeMatchesExport(rules, Value());
    }
  }
}
