/**
 * The job `LoadGraphJob.execute`: builds the BFS graph on one node from a vertex file and an
 * edge file. Consecutive edges whose source already occurs in the open run are gathered into
 * one run; when a new source arrives, the run's head is created as a BFS vertex with the rest
 * of the run as its neighbours. Every vertex still listed at the end is created without
 * neighbours. Each creation is registered in the graph's id-to-chunk-id map.
 */
module LoadGraphJob {
  import opened Wrappers
  import opened Numeric
  import opened Text
  import Platform

  /** The unchecked exceptions a malformed line raises inside `forEach`; they end the job. */
  datatype Exception = NumberFormat | ArrayIndexOutOfBounds

  type Edge = (int, int)

  /** A created BFS vertex: its id, and the neighbours `setNeighbors` gave it (None: never set). */
  datatype Creation = Creation(vertexId: int, neighbors: Option<seq<int>>)

  // ---------------------------------------------------------------------------------------
  // Reading lines

  /** A vertex-file line: its first whitespace-separated token, as a long. */
  function VertexIdOf(line: string): (r: Result<int, Exception>)
    ensures r.Ok? ==> IsLong(r.value) && |Split(line)| >= 1
  {
    var tmp := Split(line);
    if |tmp| == 0 then Err(ArrayIndexOutOfBounds)
    else if ParseLong(tmp[0]).None? then Err(NumberFormat)
    else Ok(ParseLong(tmp[0]).value)
  }

  /** An edge-file line: its first two tokens as longs, parsed left to right. */
  function EdgeOf(line: string): (r: Result<Edge, Exception>)
    ensures r.Ok? ==> IsLong(r.value.0) && IsLong(r.value.1)
  {
    var tmp := Split(line);
    if |tmp| == 0 then Err(ArrayIndexOutOfBounds)
    else if ParseLong(tmp[0]).None? then Err(NumberFormat)
    else if |tmp| < 2 then Err(ArrayIndexOutOfBounds)
    else if ParseLong(tmp[1]).None? then Err(NumberFormat)
    else Ok((ParseLong(tmp[0]).value, ParseLong(tmp[1]).value))
  }

  /** The job reads an edge line exactly as the platform's symmetriser does. */
  lemma EdgeOfAgreesWithPlatform(line: string)
    ensures EdgeOf(line).Ok? <==> Platform.ParseEdge(line).Some?
    ensures EdgeOf(line).Ok? ==> EdgeOf(line).value == Platform.ParseEdge(line).value
  {
  }

  /**
   * A file consumed by `forEach`: each line parsed in turn; the values of the lines before the
   * first one that raises, and that exception if any.
   */
  function ReadLines<T>(parse: string -> Result<T, Exception>, lines: seq<string>): (r: (seq<T>, Option<Exception>))
    ensures |r.0| <= |lines|
    ensures r.1.None? ==> |r.0| == |lines|
    decreases |lines|
  {
    if lines == [] then ([], None)
    else
      match parse(lines[0])
      case Err(e) => ([], Some(e))
      case Ok(v) =>
        var (vs, failure) := ReadLines(parse, lines[1..]);
        ([v] + vs, failure)
  }

  /** The values read are those of the first lines, in order; a failure is that of the next line. */
  lemma {:induction false} ReadLinesAt<T>(parse: string -> Result<T, Exception>, lines: seq<string>)
    ensures forall k :: 0 <= k < |ReadLines(parse, lines).0| ==> parse(lines[k]) == Ok(ReadLines(parse, lines).0[k])
    ensures ReadLines(parse, lines).1.Some? ==>
      |ReadLines(parse, lines).0| < |lines| &&
      parse(lines[|ReadLines(parse, lines).0|]) == Err(ReadLines(parse, lines).1.value)
    decreases |lines|
  {
    if lines != [] && parse(lines[0]).Ok? {
      ReadLinesAt(parse, lines[1..]);
      var vs := ReadLines(parse, lines).0;
      forall k | 0 <= k < |vs|
        ensures parse(lines[k]) == Ok(vs[k])
      {
        if k > 0 {
          assert lines[k] == lines[1..][k - 1];
        }
      }
    }
  }

  /** One line more of a file read, or the exception it raises. */
  lemma ReadLinesStep<T>(parse: string -> Result<T, Exception>, lines: seq<string>, i: nat, read: seq<T>)
    requires i < |lines|
    requires ReadLines(parse, lines) == (read + ReadLines(parse, lines[i..]).0, ReadLines(parse, lines[i..]).1)
    ensures parse(lines[i]).Err? ==> ReadLines(parse, lines) == (read, Some(parse(lines[i]).error))
    ensures parse(lines[i]).Ok? ==>
      ReadLines(parse, lines) == ((read + [parse(lines[i]).value]) + ReadLines(parse, lines[i + 1..]).0,
                                  ReadLines(parse, lines[i + 1..]).1)
  {
    assert lines[i..][1..] == lines[i + 1..];
    assert lines[i..][0] == lines[i];
    if parse(lines[i]).Err? {
      assert read + [] == read;
    } else {
      assert read + ([parse(lines[i]).value] + ReadLines(parse, lines[i + 1..]).0)
          == (read + [parse(lines[i]).value]) + ReadLines(parse, lines[i + 1..]).0;
    }
  }

  /** The vertex list: the id of every vertex-file line, in file order, or the first failure. */
  function VertexIds(lines: seq<string>): (r: Result<seq<int>, Exception>)
    ensures r.Ok? ==> |r.value| == |lines|
  {
    var (vs, failure) := ReadLines(VertexIdOf, lines);
    if failure.Some? then Err(failure.value) else Ok(vs)
  }

  /** The edges of the edge-file lines before the first malformed one, and its exception if any. */
  function EdgesRead(lines: seq<string>): (seq<Edge>, Option<Exception>) {
    ReadLines(EdgeOf, lines)
  }

  // ---------------------------------------------------------------------------------------
  // Grouping edges into runs

  /** What the edge consumer has built so far: the vertex list, the open run, the vertices created. */
  datatype Progress = Progress(vertexList: seq<int>, group: seq<int>, created: seq<Creation>)

  /** `List.remove(Object)`: the first occurrence of `x` removed, if there is one. */
  function RemoveFirst(s: seq<int>, x: int): (r: seq<int>)
    ensures multiset(r) == multiset(s) - multiset{x}
    ensures x in s ==> |r| == |s| - 1
    ensures x !in s ==> r == s
    decreases |s|
  {
    if s == [] then []
    else if s[0] == x then
      assert s == [s[0]] + s[1..];
      s[1..]
    else
      assert s == [s[0]] + s[1..];
      [s[0]] + RemoveFirst(s[1..], x)
  }

  /**
   * One edge given to the consumer: it opens a run, joins the run when its source occurs
   * anywhere in it, or closes the run, creating its head with the rest as neighbours.
   */
  function Accept(p: Progress, e: Edge): Progress {
    if p.group == [] then p.(group := [e.0, e.1])
    else if e.0 in p.group then p.(group := p.group + [e.1])
    else Progress(RemoveFirst(p.vertexList, p.group[0]), [e.0, e.1],
                  p.created + [Creation(p.group[0], Some(p.group[1..]))])
  }

  /** The edges given to the consumer one after the other. */
  function AcceptAll(p: Progress, es: seq<Edge>): Progress
    decreases |es|
  {
    if es == [] then p else Accept(AcceptAll(p, es[..|es| - 1]), es[|es| - 1])
  }

  /** Each vertex still listed, created without neighbours, in list order. */
  function Leftovers(vs: seq<int>): (r: seq<Creation>)
    ensures |r| == |vs|
    ensures forall k :: 0 <= k < |vs| ==> r[k] == Creation(vs[k], None)
    decreases |vs|
  {
    if vs == [] then [] else [Creation(vs[0], None)] + Leftovers(vs[1..])
  }

  /** The vertices created from a vertex list and the edges read, as the job is written. */
  function Built(ids: seq<int>, es: seq<Edge>, complete: bool): seq<Creation> {
    var p := AcceptAll(Progress(ids, [], []), es);
    if complete then p.created + Leftovers(p.vertexList) else p.created
  }

  /**
   * The chunks `execute` creates, in order, and the exception that ends it, if any. A file that
   * cannot be opened (None) is logged and read as empty.
   */
  function Outcome(vertexLines: Option<seq<string>>, edgeLines: Option<seq<string>>): (seq<Creation>, Option<Exception>) {
    var listed := if vertexLines.None? then Ok([]) else VertexIds(vertexLines.value);
    if listed.Err? then ([], Some(listed.error))
    else
      var read := if edgeLines.None? then ([], None) else EdgesRead(edgeLines.value);
      (Built(listed.value, read.0, read.1.None?), read.1)
  }

  // ---------------------------------------------------------------------------------------
  // What the grouping keeps

  /** The destination of every edge, in edge order. */
  function Targets(es: seq<Edge>): (r: seq<int>)
    ensures |r| == |es|
    decreases |es|
  {
    if es == [] then [] else Targets(es[..|es| - 1]) + [es[|es| - 1].1]
  }

  /** All neighbour lists given to created vertices, one after the other. */
  function Spread(cs: seq<Creation>): seq<int>
    decreases |cs|
  {
    if cs == [] then []
    else
      var last := cs[|cs| - 1];
      Spread(cs[..|cs| - 1]) + (if last.neighbors.Some? then last.neighbors.value else [])
  }

  /** The neighbours buffered in an open run: all but its head. */
  function Pending(group: seq<int>): seq<int> {
    if group == [] then [] else group[1..]
  }

  /** The vertex ids of the chunks from position `from` on, as a multiset. */
  function Heads(cs: seq<Creation>, from: nat): multiset<int>
    decreases |cs|
  {
    if |cs| <= from then multiset{} else Heads(cs[..|cs| - 1], from) + multiset{cs[|cs| - 1].vertexId}
  }

  /**
   * No edge is lost by the grouping: the neighbour lists created so far, followed by the open
   * run's neighbours, are the destinations of the edges in order; creations are only appended.
   */
  lemma {:induction false} RunsKeepTargets(p: Progress, es: seq<Edge>)
    ensures |p.created| <= |AcceptAll(p, es).created|
    ensures AcceptAll(p, es).created[..|p.created|] == p.created
    ensures Spread(AcceptAll(p, es).created) + Pending(AcceptAll(p, es).group) ==
      Spread(p.created) + Pending(p.group) + Targets(es)
    decreases |es|
  {
    if es != [] {
      var init, e := es[..|es| - 1], es[|es| - 1];
      RunsKeepTargets(p, init);
      var q := AcceptAll(p, init);
      var base := Spread(p.created) + Pending(p.group);
      assert Targets(es) == Targets(init) + [e.1];
      if q.group == [] {
        AppendAssoc(base, Targets(init), [e.1]);
      } else if e.0 in q.group {
        assert (q.group + [e.1])[1..] == q.group[1..] + [e.1];
        AppendAssoc(Spread(q.created), Pending(q.group), [e.1]);
        AppendAssoc(base, Targets(init), [e.1]);
      } else {
        var c := Creation(q.group[0], Some(q.group[1..]));
        assert (q.created + [c])[..|q.created|] == q.created;
        assert Spread(q.created + [c]) == Spread(q.created) + q.group[1..];
        AppendAssoc(Spread(q.created), Pending(q.group), [e.1]);
        AppendAssoc(base, Targets(init), [e.1]);
      }
    }
  }

  /**
   * Closing a run removes its head from the vertex list once: what is left of the list is the
   * original list less one occurrence of each head created.
   */
  lemma {:induction false} HeadsLeaveList(p: Progress, es: seq<Edge>)
    ensures |p.created| <= |AcceptAll(p, es).created|
    ensures AcceptAll(p, es).created[..|p.created|] == p.created
    ensures multiset(AcceptAll(p, es).vertexList) ==
      multiset(p.vertexList) - Heads(AcceptAll(p, es).created, |p.created|)
    decreases |es|
  {
    RunsKeepTargets(p, es);
    if es != [] {
      var init, e := es[..|es| - 1], es[|es| - 1];
      HeadsLeaveList(p, init);
      var q := AcceptAll(p, init);
      if q.group != [] && e.0 !in q.group {
        var c := Creation(q.group[0], Some(q.group[1..]));
        assert (q.created + [c])[..|q.created|] == q.created;
        var before, heads := multiset(p.vertexList), Heads(q.created, |p.created|);
        assert Heads(q.created + [c], |p.created|) == heads + multiset{c.vertexId};
        assert (before - heads) - multiset{c.vertexId} == before - (heads + multiset{c.vertexId});
      }
    }
  }

  /** A head counted in `Heads` is the vertex id of some chunk from `from` on. */
  lemma {:induction false} HeadsMember(cs: seq<Creation>, from: nat, v: int)
    requires v in Heads(cs, from)
    ensures exists k :: from <= k < |cs| && cs[k].vertexId == v
    decreases |cs|
  {
    var n := |cs| - 1;
    if cs[n].vertexId != v {
      HeadsMember(cs[..n], from, v);
      var k :| from <= k < |cs[..n]| && cs[..n][k].vertexId == v;
      assert cs[k].vertexId == v;
    }
  }

  /** A vertex found among the creations or the leftovers is among the creations followed by the leftovers. */
  lemma CreatedSomewhere(cs: seq<Creation>, vs: seq<int>, v: int)
    requires (exists k :: 0 <= k < |cs| && cs[k].vertexId == v) || v in vs
    ensures exists k :: 0 <= k < |cs + Leftovers(vs)| && (cs + Leftovers(vs))[k].vertexId == v
  {
    var all := cs + Leftovers(vs);
    if k :| 0 <= k < |cs| && cs[k].vertexId == v {
      assert all[k] == cs[k];
    } else {
      var j :| 0 <= j < |vs| && vs[j] == v;
      assert all[|cs| + j] == Leftovers(vs)[j];
    }
  }

  /** Every vertex of the vertex list is created at least once when the job completes. */
  lemma EveryListedVertexCreated(ids: seq<int>, es: seq<Edge>, v: int)
    requires v in ids
    ensures exists k :: 0 <= k < |Built(ids, es, true)| && Built(ids, es, true)[k].vertexId == v
  {
    var p := Progress(ids, [], []);
    var q := AcceptAll(p, es);
    if v in Heads(q.created, 0) {
      HeadsMember(q.created, 0, v);
    } else {
      HeadsLeaveList(p, es);
      assert multiset(q.vertexList)[v] == multiset(ids)[v] > 0;
      assert v in q.vertexList;
    }
    CreatedSomewhere(q.created, q.vertexList, v);
    assert Built(ids, es, true) == q.created + Leftovers(q.vertexList);
  }

  /** Vertices created without neighbours add nothing to the neighbour lists. */
  lemma {:induction false} LeftoversSpreadNothing(cs: seq<Creation>, vs: seq<int>)
    ensures Spread(cs + Leftovers(vs)) == Spread(cs)
    decreases |vs|
  {
    if vs != [] {
      var n := |vs| - 1;
      LeftoversSpreadNothing(cs, vs[..n]);
      LeftoversStep(vs, n);
      assert vs[..n + 1] == vs;
      var init, c := cs + Leftovers(vs[..n]), Creation(vs[n], None);
      AppendAssoc(cs, Leftovers(vs[..n]), [c]);
      assert (init + [c])[..|init|] == init;
      assert Spread(init + [c]) == Spread(init) + [];
    } else {
      assert cs + Leftovers(vs) == cs;
    }
  }

  /**
   * As written, the job loses exactly the last run: the neighbour lists of the created vertices
   * followed by the neighbours still buffered when the edge stream ends are all the destinations.
   */
  lemma LastRunDropped(ids: seq<int>, es: seq<Edge>)
    ensures Spread(Built(ids, es, true)) + Pending(AcceptAll(Progress(ids, [], []), es).group) == Targets(es)
  {
    var q := AcceptAll(Progress(ids, [], []), es);
    RunsKeepTargets(Progress(ids, [], []), es);
    LeftoversSpreadNothing(q.created, q.vertexList);
  }

  /**
   * Vertex 1 has edges to 2 and 3, but since the run is never closed, 1 is created as a
   * leftover without neighbours and no created vertex has any neighbour.
   */
  lemma LastRunLostExample()
    ensures Targets([(1, 2), (1, 3)]) == [2, 3]
    ensures Built([1, 2, 3, 4], [(1, 2), (1, 3)], true) ==
      [Creation(1, None), Creation(2, None), Creation(3, None), Creation(4, None)]
    ensures Spread(Built([1, 2, 3, 4], [(1, 2), (1, 3)], true)) == []
  {
    var es := [(1, 2), (1, 3)];
    assert es[..1] == [(1, 2)];
    assert AcceptAll(Progress([1, 2, 3, 4], [], []), es) == Progress([1, 2, 3, 4], [1, 2, 3], []);
    LeftoversSpreadNothing([], [1, 2, 3, 4]);
  }

  /** The open run closed as any other: its head is created with the buffered neighbours. */
  function Flush(p: Progress): Progress {
    if p.group == [] then p
    else Progress(RemoveFirst(p.vertexList, p.group[0]), [],
                  p.created + [Creation(p.group[0], Some(p.group[1..]))])
  }

  /** The job with the last run closed when the edge stream ends. */
  function BuiltFlushed(ids: seq<int>, es: seq<Edge>, complete: bool): seq<Creation> {
    var p := Flush(AcceptAll(Progress(ids, [], []), es));
    if complete then p.created + Leftovers(p.vertexList) else p.created
  }

  /** With the last run closed, every edge's destination is a neighbour, in edge order. */
  lemma FlushedKeepsEveryTarget(ids: seq<int>, es: seq<Edge>)
    ensures Spread(BuiltFlushed(ids, es, true)) == Targets(es)
  {
    var q := AcceptAll(Progress(ids, [], []), es);
    RunsKeepTargets(Progress(ids, [], []), es);
    var f := Flush(q);
    if q.group != [] {
      var c := Creation(q.group[0], Some(q.group[1..]));
      assert (q.created + [c])[..|q.created|] == q.created;
      assert Spread(f.created) == Spread(q.created) + Pending(q.group);
    } else {
      assert Spread(q.created) + [] == Spread(q.created);
    }
    LeftoversSpreadNothing(f.created, f.vertexList);
  }

  /** Four edges given to the consumer: each prefix is the one before with one edge more. */
  lemma AcceptPrefixes(p: Progress, a: Edge, b: Edge, c: Edge, d: Edge)
    ensures AcceptAll(p, [a]) == Accept(p, a)
    ensures AcceptAll(p, [a, b]) == Accept(AcceptAll(p, [a]), b)
    ensures AcceptAll(p, [a, b, c]) == Accept(AcceptAll(p, [a, b]), c)
    ensures AcceptAll(p, [a, b, c, d]) == Accept(AcceptAll(p, [a, b, c]), d)
  {
    assert [a][..0] == [];
    assert [a, b][..1] == [a];
    assert [a, b, c][..2] == [a, b];
    assert [a, b, c, d][..3] == [a, b, c];
  }

  /**
   * Runs of one source that are not adjacent create that vertex twice: with the vertex list
   * [x, y] and the edges (x, a), (y, b), (x, c), (u, d), vertex x gets two chunks, and the
   * graph keeps the second one. The last run, of u, is lost.
   */
  lemma RepeatedHeadCreatedTwice(x: int, y: int, u: int, a: int, b: int, c: int, d: int)
    requires y !in [x, a] && x !in [y, b] && u !in [x, c]
    ensures Built([x, y], [(x, a), (y, b), (x, c), (u, d)], true) ==
      [Creation(x, Some([a])), Creation(y, Some([b])), Creation(x, Some([c]))]
    ensures Registered(map[], Built([x, y], [(x, a), (y, b), (x, c), (u, d)], true), 0)[x] == 2
  {
    var p0 := Progress([x, y], [], []);
    AcceptPrefixes(p0, (x, a), (y, b), (x, c), (u, d));
    var p1 := Progress([x, y], [x, a], []);
    assert AcceptAll(p0, [(x, a)]) == p1;
    assert [x, y][1..] == [y];
    var p2 := Progress([y], [y, b], [Creation(x, Some([a]))]);
    assert Accept(p1, (y, b)) == p2;
    assert [y][1..] == [];
    var p3 := Progress([], [x, c], [Creation(x, Some([a])), Creation(y, Some([b]))]);
    assert Accept(p2, (x, c)) == p3;
    var cs := [Creation(x, Some([a])), Creation(y, Some([b])), Creation(x, Some([c]))];
    assert Accept(p3, (u, d)) == Progress([], [u, d], cs);
    assert Built([x, y], [(x, a), (y, b), (x, c), (u, d)], true) == cs + [];
    assert cs + [] == cs;
    RegisteredLastWins(map[], cs, 0, 2);
  }

  // ---------------------------------------------------------------------------------------
  // Registration

  /**
   * `putVertexCID(id, cid)` for every chunk from position `from` on, in order, a chunk's id
   * being its position in the store.
   */
  function Registered(graph: map<int, nat>, chunks: seq<Creation>, from: nat): map<int, nat>
    decreases |chunks|
  {
    if |chunks| <= from then graph
    else Registered(graph, chunks[..|chunks| - 1], from)[chunks[|chunks| - 1].vertexId := |chunks| - 1]
  }

  /** A vertex is registered exactly when it was before or some chunk from `from` on is created for it. */
  lemma {:induction false} RegisteredKeys(graph: map<int, nat>, chunks: seq<Creation>, from: nat, v: int)
    ensures v in Registered(graph, chunks, from) <==>
      v in graph || exists k :: from <= k < |chunks| && chunks[k].vertexId == v
    decreases |chunks|
  {
    if |chunks| > from {
      var n := |chunks| - 1;
      RegisteredKeys(graph, chunks[..n], from, v);
      assert forall k :: from <= k < n ==> chunks[..n][k] == chunks[k];
    }
  }

  /** A registered vertex keeps the chunk id of its LAST creation. */
  lemma {:induction false} RegisteredLastWins(graph: map<int, nat>, chunks: seq<Creation>, from: nat, k: nat)
    requires from <= k < |chunks|
    requires forall j :: k < j < |chunks| ==> chunks[j].vertexId != chunks[k].vertexId
    ensures chunks[k].vertexId in Registered(graph, chunks, from)
    ensures Registered(graph, chunks, from)[chunks[k].vertexId] == k
    decreases |chunks|
  {
    var n := |chunks| - 1;
    if k < n {
      RegisteredLastWins(graph, chunks[..n], from, k);
    }
  }

  /** Registering one more chunk at the end of the store. */
  lemma RegisteredStep(graph: map<int, nat>, chunks: seq<Creation>, from: nat, c: Creation)
    requires from <= |chunks|
    ensures Registered(graph, chunks + [c], from) == Registered(graph, chunks, from)[c.vertexId := |chunks|]
  {
    assert (chunks + [c])[..|chunks|] == chunks;
  }

  // ---------------------------------------------------------------------------------------
  // The job

  /**
   * DXRAM's chunk services as far as the job uses them: `create` followed by `put` stores a
   * BFS vertex as a new chunk, whose id is its position in the store.
   */
  class ChunkStore {
    var chunks: seq<Creation>

    constructor ()
      ensures chunks == []
    {
      chunks := [];
    }

    method CreateAndPut(c: Creation) returns (cid: nat)
      modifies this
      ensures chunks == old(chunks) + [c]
      ensures cid == |old(chunks)|
    {
      cid := |chunks|;
      chunks := chunks + [c];
    }
  }

  /** The vertex-file consumer: one id per line, in order; the first bad line ends the job. */
  method ReadVertexFile(lines: seq<string>) returns (r: Result<seq<int>, Exception>)
    ensures r == VertexIds(lines)
  {
    var vertexList: seq<int> := [];
    var i := 0;
    assert lines[0..] == lines;
    assert vertexList + ReadLines(VertexIdOf, lines).0 == ReadLines(VertexIdOf, lines).0;
    while i < |lines|
      invariant 0 <= i <= |lines|
      invariant ReadLines(VertexIdOf, lines) ==
        (vertexList + ReadLines(VertexIdOf, lines[i..]).0, ReadLines(VertexIdOf, lines[i..]).1)
    {
      ReadLinesStep(VertexIdOf, lines, i, vertexList);
      var vertexId := VertexIdOf(lines[i]);
      if vertexId.Err? {
        return Err(vertexId.error);
      }
      vertexList := vertexList + [vertexId.value];
      i := i + 1;
    }
    assert lines[i..] == [];
    assert vertexList + [] == vertexList;
    return Ok(vertexList);
  }

  /**
   * The edge-file consumer: the edges of `lines` are given to the grouping in order, each new
   * head creating and registering a chunk; the first bad line ends the job.
   */
  method ReadEdgeFile(parse: string -> Result<Edge, Exception>, lines: seq<string>, vertexList0: seq<int>, store: ChunkStore, graph0: map<int, nat>)
    returns (vertexList: seq<int>, graph: map<int, nat>, failure: Option<Exception>)
    modifies store
    ensures var p := AcceptAll(Progress(vertexList0, [], []), ReadLines(parse, lines).0);
      store.chunks == old(store.chunks) + p.created && vertexList == p.vertexList &&
      graph == Registered(graph0, store.chunks, |old(store.chunks)|) &&
      failure == ReadLines(parse, lines).1
  {
    ghost var chunks0 := store.chunks;
    ghost var read: seq<Edge> := [];
    ghost var created: seq<Creation> := [];
    var vertexAndNeighbors: seq<int> := [];
    vertexList, graph := vertexList0, graph0;
    var i := 0;
    assert lines[0..] == lines;
    assert read + ReadLines(parse, lines).0 == ReadLines(parse, lines).0;
    while i < |lines|
      invariant 0 <= i <= |lines|
      invariant ReadLines(parse, lines) == (read + ReadLines(parse, lines[i..]).0, ReadLines(parse, lines[i..]).1)
      invariant AcceptAll(Progress(vertexList0, [], []), read) == Progress(vertexList, vertexAndNeighbors, created)
      invariant store.chunks == chunks0 + created
      invariant graph == Registered(graph0, store.chunks, |chunks0|)
    {
      ReadLinesStep(parse, lines, i, read);
      var e;
      e, vertexList, vertexAndNeighbors, graph, created :=
        ConsumeLine(parse, lines[i], vertexList, vertexAndNeighbors, store, graph, chunks0, graph0, created);
      if e.Err? {
        assert ReadLines(parse, lines) == (read, Some(e.error));
        assert AcceptAll(Progress(vertexList0, [], []), ReadLines(parse, lines).0) == Progress(vertexList, vertexAndNeighbors, created);
        return vertexList, graph, Some(e.error);
      }
      assert (read + [e.value])[..|read|] == read;
      read := read + [e.value];
      i := i + 1;
    }
    assert lines[i..] == [];
    assert read + [] == read;
    assert ReadLines(parse, lines) == (read, None);
    assert AcceptAll(Progress(vertexList0, [], []), ReadLines(parse, lines).0) == Progress(vertexList, vertexAndNeighbors, created);
    return vertexList, graph, None;
  }

  /** The consumer's `accept` on one edge line: parse it, then extend, keep or close the run. */
  method ConsumeLine(parse: string -> Result<Edge, Exception>, line: string, vertexList: seq<int>, group: seq<int>, store: ChunkStore,
                     graph: map<int, nat>, ghost chunks0: seq<Creation>, ghost graph0: map<int, nat>,
                     ghost created: seq<Creation>)
    returns (e: Result<Edge, Exception>, vertexList': seq<int>, group': seq<int>, graph': map<int, nat>,
             ghost created': seq<Creation>)
    requires store.chunks == chunks0 + created
    requires graph == Registered(graph0, store.chunks, |chunks0|)
    modifies store
    ensures e == parse(line)
    ensures store.chunks == chunks0 + created'
    ensures graph' == Registered(graph0, store.chunks, |chunks0|)
    ensures e.Err? ==> vertexList' == vertexList && group' == group && created' == created
    ensures e.Ok? ==> Progress(vertexList', group', created') == Accept(Progress(vertexList, group, created), e.value)
  {
    vertexList', group', graph', created' := vertexList, group, graph, created;
    e := parse(line);
    if e.Err? {
      return;
    }
    var (srcId, dstId) := e.value;
    if group == [] {
      group' := [srcId, dstId];
    } else if srcId in group {
      group' := group + [dstId];
    } else {
      var vertexId := group[0];
      group' := group[1..];
      vertexList' := RemoveFirst(vertexList, vertexId);
      var c := Creation(vertexId, Some(group'));
      RegisteredStep(graph0, store.chunks, |chunks0|, c);
      var cid := store.CreateAndPut(c);
      graph' := graph[vertexId := cid];
      created' := created + [c];
      group' := [srcId, dstId];
    }
  }

  /** The vertices left in the list, each created without neighbours and registered. */
  method CreateLeftovers(vertexList: seq<int>, store: ChunkStore, graph0: map<int, nat>, ghost from: nat)
    returns (graph: map<int, nat>)
    requires from <= |store.chunks|
    requires graph0 == Registered(map[], store.chunks, from)
    modifies store
    ensures store.chunks == old(store.chunks) + Leftovers(vertexList)
    ensures graph == Registered(map[], store.chunks, from)
  {
    ghost var chunks0 := store.chunks;
    graph := graph0;
    var i := 0;
    while i < |vertexList|
      invariant 0 <= i <= |vertexList|
      invariant store.chunks == chunks0 + Leftovers(vertexList[..i])
      invariant graph == Registered(map[], store.chunks, from)
    {
      var c := Creation(vertexList[i], None);
      LeftoversStep(vertexList, i);
      RegisteredStep(map[], store.chunks, from, c);
      var cid := store.CreateAndPut(c);
      graph := graph[vertexList[i] := cid];
      i := i + 1;
    }
    assert vertexList[..i] == vertexList;
  }

  lemma LeftoversStep(vs: seq<int>, i: nat)
    requires i < |vs|
    ensures Leftovers(vs[..i + 1]) == Leftovers(vs[..i]) + [Creation(vs[i], None)]
  {
    var a, b := Leftovers(vs[..i + 1]), Leftovers(vs[..i]) + [Creation(vs[i], None)];
    assert |a| == |b|;
    forall k | 0 <= k < |a|
      ensures a[k] == b[k]
    {
    }
  }

  lemma AppendAssoc<T>(a: seq<T>, b: seq<T>, c: seq<T>)
    ensures (a + b) + c == a + (b + c)
  {
  }

  /**
   * `execute`: read the vertex list, consume the edge file, create the leftovers. A file that
   * cannot be opened (None) is logged and skipped; a malformed line ends the job with its
   * exception, keeping the chunks already created. On completion the graph's registrations
   * are returned.
   */
  method Execute(vertexLines: Option<seq<string>>, edgeLines: Option<seq<string>>, store: ChunkStore)
    returns (r: Result<map<int, nat>, Exception>)
    modifies store
    ensures store.chunks == old(store.chunks) + Outcome(vertexLines, edgeLines).0
    ensures Outcome(vertexLines, edgeLines).1.Some? ==> r == Err(Outcome(vertexLines, edgeLines).1.value)
    ensures Outcome(vertexLines, edgeLines).1.None? ==>
      r == Ok(Registered(map[], store.chunks, |old(store.chunks)|))
  {
    var graph: map<int, nat> := map[];
    var vertexList: seq<int> := [];
    if vertexLines.Some? {
      var listed := ReadVertexFile(vertexLines.value);
      if listed.Err? {
        assert Outcome(vertexLines, edgeLines) == ([], Some(listed.error));
        assert store.chunks == old(store.chunks) + [];
        return Err(listed.error);
      }
      vertexList := listed.value;
    }
    ghost var from := |store.chunks|;
    ghost var ids := vertexList;
    ghost var read := if edgeLines.None? then ([], None) else EdgesRead(edgeLines.value);
    ghost var p := AcceptAll(Progress(ids, [], []), read.0);
    assert Outcome(vertexLines, edgeLines) == (Built(ids, read.0, read.1.None?), read.1);
    if edgeLines.Some? {
      var failure;
      vertexList, graph, failure := ReadEdgeFile(EdgeOf, edgeLines.value, vertexList, store, graph);
      if failure.Some? {
        assert Built(ids, read.0, false) == p.created;
        return Err(failure.value);
      }
    } else {
      assert AcceptAll(Progress(ids, [], []), []) == Progress(ids, [], []);
    }
    assert store.chunks == old(store.chunks) + p.created && vertexList == p.vertexList;
    graph := CreateLeftovers(vertexList, store, graph, from);
    assert Built(ids, read.0, true) == p.created + Leftovers(p.vertexList);
    AppendAssoc(old(store.chunks), p.created, Leftovers(p.vertexList));
    vertexList := [];
    return Ok(graph);
  }
}
