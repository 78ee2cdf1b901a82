/**
 * `graph.data.Graph`: a list of vertices and a list of edges, serialised as two
 * counted lists. The edge class is not part of this model; its construction,
 * export, import and size are given as an `EdgeCodec`.
 */
module DataGraph {
  import opened Numeric
  import opened Serial
  import DataVertex

  /** What the graph needs from the edge class: a new edge and its three serialisation calls. */
  datatype EdgeCodec<!E> = EdgeCodec(
    newEdge: E,
    encode: E -> seq<Token>,
    decode: (seq<Token>, E) -> (E, seq<Token>),
    size: E -> nat)

  /** An edge class whose import reads back what its export wrote into a new edge. */
  ghost predicate RoundTrips<E(!new)>(codec: EdgeCodec<E>) {
    forall e, rest :: codec.decode(codec.encode(e) + rest, codec.newEdge) == (e, rest)
  }

  /** An edge class whose declared size is the size of what it exports. */
  ghost predicate SizesMatch<E(!new)>(codec: EdgeCodec<E>, rules: SizeRules) {
    forall e :: codec.size(e) == StreamSize(rules, codec.encode(e))
  }

  datatype GraphValue<E> = GraphValue(vertices: seq<DataVertex.VertexValue>, edges: seq<E>)

  function EncodeVertices(vs: seq<DataVertex.VertexValue>): seq<Token> {
    if vs == [] then [] else DataVertex.Encode(vs[0]) + EncodeVertices(vs[1..])
  }

  function EncodeEdges<E>(codec: EdgeCodec<E>, es: seq<E>): seq<Token> {
    if es == [] then [] else codec.encode(es[0]) + EncodeEdges(codec, es[1..])
  }

  /** `exportObject`: vertex count, each vertex, edge count, each edge, in list order. */
  function Encode<E>(codec: EdgeCodec<E>, g: GraphValue<E>): seq<Token> {
    [IntTok(|g.vertices|)] + EncodeVertices(g.vertices) + [IntTok(|g.edges|)] + EncodeEdges(codec, g.edges)
  }

  /** `n` vertices, each imported into a new vertex. */
  function DecodeVertices(ts: seq<Token>, n: nat): (seq<DataVertex.VertexValue>, seq<Token>) {
    if n == 0 then ([], ts)
    else
      var (v, ts1) := DataVertex.Decode(ts, DataVertex.NEW_VERTEX);
      var (vs, ts2) := DecodeVertices(ts1, n - 1);
      ([v] + vs, ts2)
  }

  /** `n` edges, each imported into a new edge. */
  function DecodeEdges<E>(codec: EdgeCodec<E>, ts: seq<Token>, n: nat): (seq<E>, seq<Token>)
    decreases n
  {
    if n == 0 then ([], ts)
    else
      var (e, ts1) := codec.decode(ts, codec.newEdge);
      var (es, ts2) := DecodeEdges(codec, ts1, n - 1);
      ([e] + es, ts2)
  }

  function NonNeg(n: int): nat {
    if n < 0 then 0 else n
  }

  /** `importObject`: the read vertices, then the read edges, appended to the lists already held. */
  function Decode<E>(codec: EdgeCodec<E>, ts: seq<Token>, cur: GraphValue<E>): (GraphValue<E>, seq<Token>) {
    var (nv, ts1) := ReadInt(ts, 0);
    var (vs, ts2) := DecodeVertices(ts1, NonNeg(nv));
    var (ne, ts3) := ReadInt(ts2, 0);
    var (es, ts4) := DecodeEdges(codec, ts3, NonNeg(ne));
    (GraphValue(cur.vertices + vs, cur.edges + es), ts4)
  }

  function VertexSizes(rules: SizeRules, vs: seq<DataVertex.VertexValue>): int {
    if vs == [] then 0 else DataVertex.SizeOf(rules, vs[0]) + VertexSizes(rules, vs[1..])
  }

  function EdgeSizes<E>(codec: EdgeCodec<E>, es: seq<E>): nat {
    if es == [] then 0 else codec.size(es[0]) + EdgeSizes(codec, es[1..])
  }

  /** `sizeofObject`: two ints plus every vertex's and every edge's size, in `int` arithmetic. */
  function SizeOf<E>(codec: EdgeCodec<E>, rules: SizeRules, g: GraphValue<E>): int {
    WrapInt(8 + VertexSizes(rules, g.vertices) + EdgeSizes(codec, g.edges))
  }

  lemma {:induction false} DecodeEncodedVertices(vs: seq<DataVertex.VertexValue>, rest: seq<Token>)
    ensures DecodeVertices(EncodeVertices(vs) + rest, |vs|) == (vs, rest)
  {
    if vs != [] {
      var tail := EncodeVertices(vs[1..]) + rest;
      assert EncodeVertices(vs) + rest == DataVertex.Encode(vs[0]) + tail;
      DataVertex.RoundTrip(vs[0], DataVertex.NEW_VERTEX, tail);
      DecodeEncodedVertices(vs[1..], rest);
      assert DecodeVertices(tail, |vs| - 1) == (vs[1..], rest);
      assert [vs[0]] + vs[1..] == vs;
    } else {
      assert EncodeVertices(vs) + rest == rest;
    }
  }

  lemma {:induction false} DecodeEncodedEdges<E(!new)>(codec: EdgeCodec<E>, es: seq<E>, rest: seq<Token>)
    requires RoundTrips(codec)
    ensures DecodeEdges(codec, EncodeEdges(codec, es) + rest, |es|) == (es, rest)
  {
    if es != [] {
      var tail := EncodeEdges(codec, es[1..]) + rest;
      assert EncodeEdges(codec, es) + rest == codec.encode(es[0]) + tail;
      assert codec.decode(codec.encode(es[0]) + tail, codec.newEdge) == (es[0], tail);
      DecodeEncodedEdges(codec, es[1..], rest);
      assert DecodeEdges(codec, tail, |es| - 1) == (es[1..], rest);
      assert [es[0]] + es[1..] == es;
    } else {
      assert EncodeEdges(codec, es) + rest == rest;
    }
  }

  /**
   * Import after export appends the exported vertices and edges, in order, to whatever
   * the importing graph already holds; into a new graph it restores the graph.
   */
  lemma RoundTrip<E(!new)>(codec: EdgeCodec<E>, g: GraphValue<E>, cur: GraphValue<E>, rest: seq<Token>)
    requires RoundTrips(codec)
    ensures Decode(codec, Encode(codec, g) + rest, cur)
            == (GraphValue(cur.vertices + g.vertices, cur.edges + g.edges), rest)
    ensures Decode(codec, Encode(codec, g) + rest, GraphValue([], [])) == (g, rest)
  {
    var ev := EncodeVertices(g.vertices);
    var ee := EncodeEdges(codec, g.edges);
    var afterVertices := [IntTok(|g.edges|)] + (ee + rest);
    assert Encode(codec, g) + rest == [IntTok(|g.vertices|)] + (ev + afterVertices);
    DecodeEncodedVertices(g.vertices, afterVertices);
    DecodeEncodedEdges(codec, g.edges, rest);
    assert ReadInt(Encode(codec, g) + rest, 0) == (|g.vertices|, ev + afterVertices);
    assert ReadInt(afterVertices, 0) == (|g.edges|, ee + rest);
    assert [] + g.vertices == g.vertices && [] + g.edges == g.edges;
  }

  /** The vertices' own (wrapped) sizes add up, wrapped, to the size of their export. */
  lemma {:induction false} VertexSizesMatch(rules: SizeRules, vs: seq<DataVertex.VertexValue>)
    ensures WrapInt(VertexSizes(rules, vs)) == WrapInt(StreamSize(rules, EncodeVertices(vs)))
  {
    if vs != [] {
      var head := StreamSize(rules, DataVertex.Encode(vs[0]));
      var tail := StreamSize(rules, EncodeVertices(vs[1..]));
      VertexSizesMatch(rules, vs[1..]);
      DataVertex.SizeMatchesExport(rules, vs[0]);
      StreamSizeAppend(rules, DataVertex.Encode(vs[0]), EncodeVertices(vs[1..]));
      WrapIntAdd(head, VertexSizes(rules, vs[1..]));
      WrapIntAdd(VertexSizes(rules, vs[1..]), head);
      WrapIntAdd(tail, head);
    }
  }

  lemma {:induction false} EdgeSizesMatch<E(!new)>(codec: EdgeCodec<E>, rules: SizeRules, es: seq<E>)
    requires SizesMatch(codec, rules)
    ensures EdgeSizes(codec, es) == StreamSize(rules, EncodeEdges(codec, es))
  {
    if es != [] {
      EdgeSizesMatch(codec, rules, es[1..]);
      StreamSizeAppend(rules, codec.encode(es[0]), EncodeEdges(codec, es[1..]));
    }
  }

  /** The declared size is the (wrapped) size of what export writes, given edges whose sizes match theirs. */
  lemma SizeMatchesExport<E(!new)>(codec: EdgeCodec<E>, rules: SizeRules, g: GraphValue<E>)
    requires SizesMatch(codec, rules)
    ensures SizeOf(codec, rules, g) == WrapInt(StreamSize(rules, Encode(codec, g)))
  {
    var ev := EncodeVertices(g.vertices);
    var ee := EncodeEdges(codec, g.edges);
    VertexSizesMatch(rules, g.vertices);
    EdgeSizesMatch(codec, rules, g.edges);
    var rest := 8 + EdgeSizes(codec, g.edges);
    WrapIntAdd(VertexSizes(rules, g.vertices), rest);
    WrapIntAdd(StreamSize(rules, ev), rest);
    StreamSizeCons(rules, IntTok(|g.vertices|), ev);
    StreamSizeCons(rules, IntTok(|g.edges|), ee);
    StreamSizeAppend(rules, [IntTok(|g.vertices|)] + ev, [IntTok(|g.edges|)] + ee);
    assert Encode(codec, g) == ([IntTok(|g.vertices|)] + ev) + ([IntTok(|g.edges|)] + ee);
  }

  /** The values of a list of vertex objects, in list order. */
  ghost function ValuesOf(vs: seq<DataVertex.Vertex>): (r: seq<DataVertex.VertexValue>)
    reads set v | v in vs
    reads set v | v in vs :: v.neighbors
    ensures |r| == |vs|
  {
    if vs == [] then [] else [vs[0].Value()] + ValuesOf(vs[1..])
  }

  lemma {:induction false} ValuesOfIndex(vs: seq<DataVertex.Vertex>, i: nat)
    requires i < |vs|
    ensures ValuesOf(vs)[i] == vs[i].Value()
    decreases i
  {
    if i > 0 {
      ValuesOfIndex(vs[1..], i - 1);
    }
  }

  lemma DecodeVerticesStep(ts: seq<Token>, k: nat)
    requires k > 0
    ensures var (v, ts1) := DataVertex.Decode(ts, DataVertex.NEW_VERTEX);
      DecodeVertices(ts, k).0 == [v] + DecodeVertices(ts1, k - 1).0
      && DecodeVertices(ts, k).1 == DecodeVertices(ts1, k - 1).1
  {
  }

  /** One vertex read moves from the pending part of the read to the part already read. */
  lemma DecodeVerticesShift(ts1: seq<Token>, n: nat, i: nat, ts: seq<Token>, read: seq<DataVertex.VertexValue>)
    requires i < n
    requires DecodeVertices(ts1, n).0 == read + DecodeVertices(ts, n - i).0
    requires DecodeVertices(ts1, n).1 == DecodeVertices(ts, n - i).1
    ensures var (x, ts') := DataVertex.Decode(ts, DataVertex.NEW_VERTEX);
      DecodeVertices(ts1, n).0 == (read + [x]) + DecodeVertices(ts', n - i - 1).0
      && DecodeVertices(ts1, n).1 == DecodeVertices(ts', n - i - 1).1
  {
    var (x, ts') := DataVertex.Decode(ts, DataVertex.NEW_VERTEX);
    DecodeVerticesStep(ts, n - i);
    AppendAssoc(read, [x], DecodeVertices(ts', n - i - 1).0);
  }

  lemma {:induction false} ValuesOfSnoc(vs: seq<DataVertex.Vertex>, v: DataVertex.Vertex)
    ensures ValuesOf(vs + [v]) == ValuesOf(vs) + [v.Value()]
  {
    if vs != [] {
      assert (vs + [v])[1..] == vs[1..] + [v];
      ValuesOfSnoc(vs[1..], v);
    } else {
      assert ValuesOf([v]) == [v.Value()] + ValuesOf([]);
    }
  }

  class Graph<E(!new)> {
    var vertices: seq<DataVertex.Vertex>
    var edges: seq<E>

    ghost function Value(): GraphValue<E>
      reads this, set v | v in vertices, set v | v in vertices :: v.neighbors
    {
      GraphValue(ValuesOf(vertices), edges)
    }

    constructor ()
      ensures vertices == [] && edges == []
    {
      vertices := [];
      edges := [];
    }

    /** `getVertices`: the current vertex list, as a value (the Java list object is not shared). */
    method GetVertices() returns (r: seq<DataVertex.Vertex>)
      ensures r == vertices
    {
      r := vertices;
    }

    method GetEdges() returns (r: seq<E>)
      ensures r == edges
    {
      r := edges;
    }

    method ExportObject(codec: EdgeCodec<E>, out: seq<Token>) returns (out': seq<Token>)
      ensures out' == out + Encode(codec, Value())
    {
      ghost var vals := ValuesOf(vertices);
      ghost var head := out + [IntTok(|vertices|)];
      ghost var middle := head + EncodeVertices(vals) + [IntTok(|edges|)];
      out' := out + [IntTok(|vertices|)];
      assert vals[0..] == vals;
      var i := 0;
      while i < |vertices|
        invariant 0 <= i <= |vertices| == |vals|
        invariant out' + EncodeVertices(vals[i..]) == head + EncodeVertices(vals)
      {
        ghost var before := out';
        ValuesOfIndex(vertices, i);
        out' := vertices[i].ExportObject(out');
        EncodeVerticesAt(vals, i);
        ShiftStep(before, DataVertex.Encode(vals[i]), EncodeVertices(vals[i + 1..]), head + EncodeVertices(vals));
        i := i + 1;
      }
      assert vals[i..] == [];
      out' := out' + [IntTok(|edges|)];
      assert edges[0..] == edges;
      var j := 0;
      while j < |edges|
        invariant 0 <= j <= |edges|
        invariant out' + EncodeEdges(codec, edges[j..]) == middle + EncodeEdges(codec, edges)
      {
        ghost var before := out';
        out' := out' + codec.encode(edges[j]);
        EncodeEdgesAt(codec, edges, j);
        ShiftStep(before, codec.encode(edges[j]), EncodeEdges(codec, edges[j + 1..]), middle + EncodeEdges(codec, edges));
        j := j + 1;
      }
      assert edges[j..] == [];
      assert Encode(codec, Value()) == [IntTok(|vertices|)] + EncodeVertices(vals) + [IntTok(|edges|)] + EncodeEdges(codec, edges);
      Prefix4(out, [IntTok(|vertices|)], EncodeVertices(vals), [IntTok(|edges|)], EncodeEdges(codec, edges));
    }

    /** `importObject`: new vertices and edges read from the stream are appended to the lists. */
    method ImportObject(codec: EdgeCodec<E>, input: seq<Token>) returns (rest: seq<Token>)
      modifies this
      ensures (Value(), rest) == Decode(codec, input, old(Value()))
      ensures |vertices| >= |old(vertices)| && vertices[..|old(vertices)|] == old(vertices)
    {
      var nv, ts1 := ReadInt(input, 0).0, ReadInt(input, 0).1;
      var ts2 := ImportVertices(ts1, nv);
      var ne, ts3 := ReadInt(ts2, 0).0, ReadInt(ts2, 0).1;
      rest := ImportEdges(codec, ts3, ne);
    }

    /** The vertex loop of `importObject`. */
    method ImportVertices(ts1: seq<Token>, nv: int) returns (rest: seq<Token>)
      modifies this
      ensures edges == old(edges)
      ensures ValuesOf(vertices) == old(ValuesOf(vertices)) + DecodeVertices(ts1, NonNeg(nv)).0
      ensures rest == DecodeVertices(ts1, NonNeg(nv)).1
      ensures |vertices| >= |old(vertices)| && vertices[..|old(vertices)|] == old(vertices)
    {
      ghost var oldVals := ValuesOf(vertices);
      ghost var n := NonNeg(nv);
      ghost var read: seq<DataVertex.VertexValue> := [];
      var ts := ts1;
      var i := 0;
      assert read + DecodeVertices(ts, n).0 == DecodeVertices(ts, n).0;
      while i < nv
        invariant 0 <= i <= n
        invariant |vertices| == |old(vertices)| + i && vertices[..|old(vertices)|] == old(vertices)
        invariant ValuesOf(vertices) == oldVals + read
        invariant DecodeVertices(ts1, n).0 == read + DecodeVertices(ts, n - i).0
        invariant DecodeVertices(ts1, n).1 == DecodeVertices(ts, n - i).1
        invariant edges == old(edges)
      {
        ts, read := ImportVertexStep(ts1, n, i, ts, oldVals, read, old(vertices));
        i := i + 1;
      }
      rest := ts;
    }

    /** One pass of the vertex loop, with the loop's bookkeeping carried one vertex further. */
    method ImportVertexStep(ghost ts1: seq<Token>, ghost n: nat, ghost i: nat, ts: seq<Token>,
                            ghost oldVals: seq<DataVertex.VertexValue>, ghost read: seq<DataVertex.VertexValue>,
                            ghost start: seq<DataVertex.Vertex>)
      returns (ts': seq<Token>, ghost read': seq<DataVertex.VertexValue>)
      requires i < n && |vertices| == |start| + i && vertices[..|start|] == start
      requires ValuesOf(vertices) == oldVals + read
      requires DecodeVertices(ts1, n).0 == read + DecodeVertices(ts, n - i).0
      requires DecodeVertices(ts1, n).1 == DecodeVertices(ts, n - i).1
      modifies this
      ensures |vertices| == |start| + i + 1 && vertices[..|start|] == start
      ensures ValuesOf(vertices) == oldVals + read'
      ensures DecodeVertices(ts1, n).0 == read' + DecodeVertices(ts', n - i - 1).0
      ensures DecodeVertices(ts1, n).1 == DecodeVertices(ts', n - i - 1).1
      ensures edges == old(edges)
    {
      ghost var prev := vertices;
      ts' := ImportOneVertex(ts);
      ghost var x := DataVertex.Decode(ts, DataVertex.NEW_VERTEX).0;
      DecodeVerticesShift(ts1, n, i, ts, read);
      AppendAssoc(oldVals, read, [x]);
      assert vertices[..|start|] == prev[..|start|];
      read' := read + [x];
    }

    /** One iteration of the vertex loop: `new Vertex()`, `importObject` on it, then `add`. */
    method ImportOneVertex(ts: seq<Token>) returns (rest: seq<Token>)
      modifies this
      ensures edges == old(edges)
      ensures |vertices| == |old(vertices)| + 1 && vertices[..|old(vertices)|] == old(vertices)
      ensures fresh(vertices[|old(vertices)|])
      ensures ValuesOf(vertices) == old(ValuesOf(vertices)) + [DataVertex.Decode(ts, DataVertex.NEW_VERTEX).0]
      ensures rest == DataVertex.Decode(ts, DataVertex.NEW_VERTEX).1
    {
      ghost var before := ValuesOf(vertices);
      var v := new DataVertex.Vertex();
      rest := v.ImportObject(ts);
      assert ValuesOf(vertices) == before;
      ValuesOfSnoc(vertices, v);
      vertices := vertices + [v];
    }

    /** The edge loop of `importObject`. */
    method ImportEdges(codec: EdgeCodec<E>, ts3: seq<Token>, ne: int) returns (rest: seq<Token>)
      modifies this
      ensures vertices == old(vertices)
      ensures edges == old(edges) + DecodeEdges(codec, ts3, NonNeg(ne)).0
      ensures rest == DecodeEdges(codec, ts3, NonNeg(ne)).1
    {
      ghost var m := NonNeg(ne);
      ghost var readEdges: seq<E> := [];
      var j := 0;
      var ts := ts3;
      assert readEdges + DecodeEdges(codec, ts, m).0 == DecodeEdges(codec, ts, m).0;
      while j < ne
        invariant 0 <= j <= m
        invariant vertices == old(vertices)
        invariant edges == old(edges) + readEdges
        invariant DecodeEdges(codec, ts3, m) == (readEdges + DecodeEdges(codec, ts, m - j).0, DecodeEdges(codec, ts, m - j).1)
      {
        var e, ts' := codec.decode(ts, codec.newEdge).0, codec.decode(ts, codec.newEdge).1;
        assert DecodeEdges(codec, ts, m - j) == ([e] + DecodeEdges(codec, ts', m - j - 1).0, DecodeEdges(codec, ts', m - j - 1).1);
        assert (readEdges + [e]) + DecodeEdges(codec, ts', m - j - 1).0 == readEdges + ([e] + DecodeEdges(codec, ts', m - j - 1).0);
        readEdges := readEdges + [e];
        edges := edges + [e];
        ts := ts';
        j := j + 1;
      }
      rest := ts;
    }

    method SizeofObject(codec: EdgeCodec<E>, rules: SizeRules) returns (s: int)
      ensures s == SizeOf(codec, rules, Value())
    {
      s := AddVertexSizes(rules, 4);
      s := AddEdgeSizes(codec, WrapInt(s + 4));
      SizeSum(VertexSizes(rules, ValuesOf(vertices)), EdgeSizes(codec, edges));
    }

    /** The vertex loop of `sizeofObject`: each vertex's size added in `int` arithmetic. */
    method AddVertexSizes(rules: SizeRules, s0: int) returns (s: int)
      requires IsInt(s0)
      ensures s == WrapInt(s0 + VertexSizes(rules, ValuesOf(vertices)))
    {
      ghost var vals := ValuesOf(vertices);
      ghost var target := WrapInt(s0 + VertexSizes(rules, vals));
      s := s0;
      assert vals[0..] == vals;
      var i := 0;
      while i < |vertices|
        invariant 0 <= i <= |vertices| == |vals|
        invariant IsInt(s)
        invariant WrapInt(s + VertexSizes(rules, vals[i..])) == target
      {
        var vs := vertices[i].SizeofObject(rules);
        assert vs == DataVertex.SizeOf(rules, vals[i]) by {
          ValuesOfIndex(vertices, i);
          DataVertex.SizeMatchesExport(rules, vals[i]);
        }
        VertexStepTo(rules, vals, i, s, vs, target);
        s := WrapInt(s + vs);
        i := i + 1;
      }
      assert vals[i..] == [];
    }

    /** The edge loop of `sizeofObject`. */
    method AddEdgeSizes(codec: EdgeCodec<E>, s0: int) returns (s: int)
      requires IsInt(s0)
      ensures s == WrapInt(s0 + EdgeSizes(codec, edges))
    {
      s := s0;
      assert edges[0..] == edges;
      var j := 0;
      while j < |edges|
        invariant 0 <= j <= |edges|
        invariant IsInt(s)
        invariant WrapInt(s + EdgeSizes(codec, edges[j..])) == WrapInt(s0 + EdgeSizes(codec, edges))
      {
        EdgeStep(codec, edges, j, s);
        s := WrapInt(s + codec.size(edges[j]));
        j := j + 1;
      }
      assert edges[|edges|..] == [];
    }
  }

  lemma VertexStep(rules: SizeRules, vals: seq<DataVertex.VertexValue>, i: nat, s: int, later: int)
    requires i < |vals|
    ensures WrapInt(WrapInt(s + DataVertex.SizeOf(rules, vals[i])) + VertexSizes(rules, vals[i + 1..]) + later)
            == WrapInt(s + VertexSizes(rules, vals[i..]) + later)
  {
    assert vals[i..][1..] == vals[i + 1..];
    WrapIntAdd(s + DataVertex.SizeOf(rules, vals[i]), VertexSizes(rules, vals[i + 1..]) + later);
  }

  /** One pass of the vertex loop of `sizeofObject` keeps the wrapped total. */
  lemma VertexStepTo(rules: SizeRules, vals: seq<DataVertex.VertexValue>, i: nat, s: int, vs: int, target: int)
    requires i < |vals| && vs == DataVertex.SizeOf(rules, vals[i])
    requires WrapInt(s + VertexSizes(rules, vals[i..])) == target
    ensures WrapInt(WrapInt(s + vs) + VertexSizes(rules, vals[i + 1..])) == target
  {
    VertexStep(rules, vals, i, s, 0);
  }

  lemma EncodeVerticesAt(vals: seq<DataVertex.VertexValue>, i: nat)
    requires i < |vals|
    ensures EncodeVertices(vals[i..]) == DataVertex.Encode(vals[i]) + EncodeVertices(vals[i + 1..])
  {
    assert vals[i..][0] == vals[i] && vals[i..][1..] == vals[i + 1..];
  }

  lemma EncodeEdgesAt<E>(codec: EdgeCodec<E>, es: seq<E>, j: nat)
    requires j < |es|
    ensures EncodeEdges(codec, es[j..]) == codec.encode(es[j]) + EncodeEdges(codec, es[j + 1..])
  {
    assert es[j..][0] == es[j] && es[j..][1..] == es[j + 1..];
  }

  /** Moving one piece from the pending part to the written part keeps the total. */
  lemma ShiftStep<T>(acc: seq<T>, piece: seq<T>, pending: seq<T>, total: seq<T>)
    requires acc + (piece + pending) == total
    ensures (acc + piece) + pending == total
  {
  }

  lemma AppendAssoc<T>(a: seq<T>, b: seq<T>, c: seq<T>)
    ensures (a + b) + c == a + (b + c)
  {
  }

  lemma Prefix4<T>(o: seq<T>, a: seq<T>, b: seq<T>, c: seq<T>, d: seq<T>)
    ensures o + (a + b + c + d) == o + a + b + c + d
  {
  }

  /** Wrapping after each of the three additions equals wrapping the exact total. */
  lemma SizeSum(v: int, e: int)
    ensures WrapInt(WrapInt(WrapInt(4 + v) + 4) + e) == WrapInt(8 + v + e)
  {
    WrapIntAdd(4 + v, 4);
    WrapIntAdd(8 + v, e);
  }

  lemma EdgeStep<E>(codec: EdgeCodec<E>, es: seq<E>, j: nat, s: int)
    requires j < |es|
    ensures WrapInt(WrapInt(s + codec.size(es[j])) + EdgeSizes(codec, es[j + 1..]))
            == WrapInt(s + EdgeSizes(codec, es[j..]))
  {
    assert es[j..][1..] == es[j + 1..];
    WrapIntAdd(s + codec.size(es[j]), EdgeSizes(codec, es[j + 1..]));
  }
}
