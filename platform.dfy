/**
 * `DxramPlatform.loadGraph` and `prepare`: turning an undirected edge list into one that
 * holds both directions of every edge, in ascending order, and writing the partition index
 * file. Files are a map from path to their lines.
 */
module Platform {
  import opened Wrappers
  import opened Numeric
  import opened Text

  /** An edge line's (left, right) pair. */
  type Edge = (int, int)

  datatype FormattedGraph = FormattedGraph(vertexFilePath: string, edgeFilePath: string, directed: bool,
                                           numberOfVertices: int, numberOfEdges: int)

  datatype LoadedGraph = LoadedGraph(graph: FormattedGraph, vertexPath: string, edgePath: string)

  /** Every failure of `loadGraph` is rethrown as this one exception. */
  datatype Failure = PlatformExecutionException

  /** The files the platform reads and writes, each held as its lines. */
  class FileSystem {
    var files: map<string, seq<string>>

    constructor (files0: map<string, seq<string>>)
      ensures files == files0
    {
      files := files0;
    }
  }

  // ---------------------------------------------------------------------------
  // Reading the edge list
  // ---------------------------------------------------------------------------

  /**
   * One edge line: only the first two whitespace-separated tokens are used, both as longs;
   * None stands for the exception a missing or malformed token raises.
   */
  function ParseEdge(line: string): (r: Option<Edge>)
    ensures r.Some? ==> IsLong(r.value.0) && IsLong(r.value.1)
    ensures r.Some? ==> |Split(line)| >= 2
  {
    var tmp := Split(line);
    if |tmp| < 2 then None
    else
      match (ParseLong(tmp[0]), ParseLong(tmp[1]))
      case (Some(left), Some(right)) => Some((left, right))
      case _ => None
  }

  /** Every line parsed, in order; None when any line does not parse. */
  function ParseEdges(lines: seq<string>): (r: Option<seq<Edge>>)
    ensures r.Some? ==> |r.value| == |lines|
  {
    if lines == [] then Some([])
    else
      match (ParseEdge(lines[0]), ParseEdges(lines[1..]))
      case (Some(e), Some(es)) => Some([e] + es)
      case _ => None
  }

  /** The neighbour set of `v`, empty when `v` is no key. */
  function Neighbours(adj: map<int, set<int>>, v: int): set<int> {
    if v in adj then adj[v] else {}
  }

  /**
   * One edge (left, right): a missing end gets an empty set, then right goes into the set
   * of left and left into the set of right.
   */
  function AddEdge(adj: map<int, set<int>>, e: Edge): map<int, set<int>> {
    var withLeft := if e.0 in adj then adj else adj[e.0 := {}];
    var withBoth := if e.1 in withLeft then withLeft else withLeft[e.1 := {}];
    var added := withBoth[e.0 := withBoth[e.0] + {e.1}];
    added[e.1 := added[e.1] + {e.0}]
  }

  /** The edges added one after the other. */
  function AddAll(adj: map<int, set<int>>, es: seq<Edge>): map<int, set<int>>
    decreases |es|
  {
    if es == [] then adj else AddAll(AddEdge(adj, es[0]), es[1..])
  }

  /**
   * The read loop from the map built so far over the lines still to come: the map at the
   * end of the file, or None when a line throws.
   */
  function ReadEdges(adj: map<int, set<int>>, lines: seq<string>): Option<map<int, set<int>>>
    decreases |lines|
  {
    if lines == [] then Some(adj)
    else
      match ParseEdge(lines[0])
      case None => None
      case Some(e) => ReadEdges(AddEdge(adj, e), lines[1..])
  }

  // ---------------------------------------------------------------------------
  // Writing in ascending order
  // ---------------------------------------------------------------------------

  predicate Increasing(r: seq<int>) {
    forall i, j :: 0 <= i < j < |r| ==> r[i] < r[j]
  }

  ghost function Min(s: set<int>): (m: int)
    requires s != {}
    ensures m in s && forall z :: z in s ==> m <= z
    decreases |s|
  {
    assert (forall x :: x !in s) ==> s == {};
    var e :| e in s;
    if s == {e} then
      assert forall z :: z in s ==> z in {e};
      e
    else
      assert forall z :: z in s ==> z == e || z in s - {e};
      var y := Min(s - {e});
      if e < y then e else y
  }

  /** The elements of `s` in ascending order, as a `TreeSet` or a sorted list gives them. */
  ghost function Ascending(s: set<int>): (r: seq<int>)
    ensures |r| == |s|
    decreases |s|
  {
    if s == {} then []
    else
      var m := Min(s);
      [m] + Ascending(s - {m})
  }

  /** `Ascending` lists exactly the elements of the set, each once, strictly increasing. */
  lemma {:induction false} AscendingFacts(s: set<int>)
    ensures Increasing(Ascending(s))
    ensures forall x :: x in Ascending(s) <==> x in s
    decreases |s|
  {
    if s != {} {
      var m := Min(s);
      var rest := Ascending(s - {m});
      AscendingFacts(s - {m});
      assert Ascending(s) == [m] + rest;
      forall j | 0 <= j < |rest| ensures m < rest[j] {
        assert rest[j] in rest;
      }
    }
  }

  /** The lines of one key: (left, right) for each right, in the given order. */
  function Row(left: int, rights: seq<int>): (r: seq<Edge>)
    ensures |r| == |rights|
  {
    if rights == [] then [] else [(left, rights[0])] + Row(left, rights[1..])
  }

  /** The pairs written for the keys `keys`, one key after the other. */
  ghost function EmitKeys(adj: map<int, set<int>>, keys: seq<int>): seq<Edge> {
    if keys == [] then []
    else Row(keys[0], Ascending(Neighbours(adj, keys[0]))) + EmitKeys(adj, keys[1..])
  }

  /** The pairs written: keys ascending, and each key's neighbours ascending. */
  ghost function Emitted(adj: map<int, set<int>>): seq<Edge> {
    EmitKeys(adj, Ascending(adj.Keys))
  }

  /** `String.valueOf(left) + " " + String.valueOf(right)`. */
  function EdgeLine(e: Edge): string {
    LongToString(e.0) + " " + LongToString(e.1)
  }

  lemma AppendAssoc<T>(a: seq<T>, b: seq<T>, c: seq<T>)
    ensures (a + b) + c == a + (b + c)
  {
  }

  /** `f` applied to every element, in order. */
  function Each<T, U>(f: T -> U, s: seq<T>): (r: seq<U>)
    ensures |r| == |s|
  {
    if s == [] then [] else [f(s[0])] + Each(f, s[1..])
  }

  lemma {:induction false} EachAppend<T, U>(f: T -> U, a: seq<T>, b: seq<T>)
    ensures Each(f, a + b) == Each(f, a) + Each(f, b)
    decreases |a|
  {
    if a == [] {
      assert a + b == b;
    } else {
      assert (a + b)[0] == a[0] && (a + b)[1..] == a[1..] + b;
      EachAppend(f, a[1..], b);
    }
  }

  /** Appending `f` of `row` to `w0`, then `f` of `more`, is appending `f` of both at once. */
  lemma EachShift<T, U>(f: T -> U, w0: seq<U>, written: seq<U>, row: seq<T>, more: seq<T>)
    requires written == w0 + Each(f, row)
    ensures written + Each(f, more) == w0 + Each(f, row + more)
  {
    EachAppend(f, row, more);
  }

  /** The lines written for the pairs `es`, one per pair. */
  function Lines(es: seq<Edge>): (r: seq<string>)
    ensures |r| == |es|
  {
    Each(EdgeLine, es)
  }

  /** The lines `loadGraph` writes for an undirected edge file, or None when reading throws. */
  ghost function Undirected(lines: seq<string>): Option<seq<string>> {
    match ReadEdges(map[], lines)
    case None => None
    case Some(adj) => Some(Lines(Emitted(adj)))
  }

  // ---------------------------------------------------------------------------
  // The platform operations
  // ---------------------------------------------------------------------------

  /**
   * `loadGraph`: a directed graph keeps its edge file. For an undirected one the output
   * `edgeFilePath + ".2"` is created new (failing when it exists), then the input is read
   * into a map of neighbour sets holding both directions of every edge, and the pairs are
   * written key by key in ascending order. Any failure after the output was created leaves
   * it empty.
   */
  method LoadGraph(g: FormattedGraph, fs: FileSystem) returns (r: Result<LoadedGraph, Failure>)
    modifies fs
    ensures g.directed ==> r == Ok(LoadedGraph(g, g.vertexFilePath, g.edgeFilePath)) && fs.files == old(fs.files)
    ensures !g.directed ==>
              var out := g.edgeFilePath + ".2";
              if out in old(fs.files) then
                r == Err(PlatformExecutionException) && fs.files == old(fs.files)
              else
                var written := if g.edgeFilePath in old(fs.files) then Undirected(old(fs.files)[g.edgeFilePath]) else None;
                fs.files == old(fs.files)[out := if written.Some? then written.value else []] &&
                r == if written.Some? then Ok(LoadedGraph(g, g.vertexFilePath, out)) else Err(PlatformExecutionException)
  {
    var edgeFilePath := g.edgeFilePath;
    if !g.directed {
      edgeFilePath := edgeFilePath + ".2";
      assert |edgeFilePath| != |g.edgeFilePath|;
      if edgeFilePath in fs.files {
        return Err(PlatformExecutionException);  // CREATE_NEW on an existing file
      }
      var ok := Symmetrize(g.edgeFilePath, edgeFilePath, fs);
      if !ok {
        return Err(PlatformExecutionException);
      }
    }
    r := Ok(LoadedGraph(g, g.vertexFilePath, edgeFilePath));
  }

  /**
   * The body of the `try` in `loadGraph`: `output` is created empty, then `input` is read
   * and the symmetric, ascending pairs are written to `output`. False stands for the
   * exception a missing input or a malformed line raises.
   */
  method Symmetrize(input: string, output: string, fs: FileSystem) returns (ok: bool)
    requires output !in fs.files && input != output
    modifies fs
    ensures var written := if input in old(fs.files) then Undirected(old(fs.files)[input]) else None;
            fs.files == old(fs.files)[output := if written.Some? then written.value else []] &&
            ok == written.Some?
  {
    ghost var files0 := fs.files;
    fs.files := fs.files[output := []];
    if input !in fs.files {
      return false;
    }
    var lines := fs.files[input];
    assert lines == files0[input];
    ghost var expected := Undirected(lines);
    var adj := ReadAll(lines);
    if adj.None? {
      assert expected == None;
      return false;
    }
    var written := WriteAscending(adj.value);
    assert expected == Some(written);
    fs.files := fs.files[output := written];
    ok := true;
  }

  /** The read loop of `loadGraph`: every line adds its edge in both directions. */
  method ReadAll(lines: seq<string>) returns (r: Option<map<int, set<int>>>)
    ensures r == ReadEdges(map[], lines)
  {
    var tmpEdges: map<int, set<int>> := map[];
    var i := 0;
    while i < |lines|
      invariant 0 <= i <= |lines|
      invariant ReadEdges(tmpEdges, lines[i..]) == ReadEdges(map[], lines)
    {
      var edge := ParseEdge(lines[i]);
      ReadEdgesStep(tmpEdges, lines, i);
      if edge.None? {
        return None;
      }
      var left, right := edge.value.0, edge.value.1;
      ghost var before := tmpEdges;
      if left !in tmpEdges {
        tmpEdges := tmpEdges[left := {}];
      }
      if right !in tmpEdges {
        tmpEdges := tmpEdges[right := {}];
      }
      tmpEdges := tmpEdges[left := tmpEdges[left] + {right}];
      tmpEdges := tmpEdges[right := tmpEdges[right] + {left}];
      assert tmpEdges == AddEdge(before, edge.value);
      assert ReadEdges(tmpEdges, lines[i + 1..]) == ReadEdges(before, lines[i..]);
      i := i + 1;
    }
    assert lines[i..] == [];
    r := Some(tmpEdges);
  }

  /** The write loops of `loadGraph`: keys polled in ascending order, each key's set iterated in order. */
  method WriteAscending(adj: map<int, set<int>>) returns (written: seq<string>)
    ensures written == Lines(Emitted(adj))
  {
    var tmpEdges := adj;
    var sortedLeft := SortAscending(tmpEdges.Keys);
    assert Increasing(sortedLeft) && forall k :: k in sortedLeft ==> k in adj by {
      AscendingFacts(adj.Keys);
    }
    written := [];
    while sortedLeft != []
      invariant Increasing(sortedLeft)
      invariant forall k :: k in sortedLeft ==> k in adj && k in tmpEdges && tmpEdges[k] == adj[k]
      invariant written + Lines(EmitKeys(adj, sortedLeft)) == Lines(Emitted(adj))
      decreases |sortedLeft|
    {
      ghost var keys, w0 := sortedLeft, written;
      var left := sortedLeft[0];
      sortedLeft := sortedLeft[1..];
      IncreasingDrop(keys);
      var rights := SortAscending(tmpEdges[left]);
      assert left in adj && rights == Ascending(adj[left]);
      tmpEdges := tmpEdges - {left};
      written := WriteRow(written, left, rights);
      WriteStep(adj, keys, w0, written);
      forall k | k in sortedLeft
        ensures k in adj && k in tmpEdges && tmpEdges[k] == adj[k]
      {
        IncreasingTail(keys, k);
      }
    }
  }

  /** One step of the read loop. */
  lemma ReadEdgesStep(adj: map<int, set<int>>, lines: seq<string>, i: nat)
    requires i < |lines|
    ensures ParseEdge(lines[i]).None? ==> ReadEdges(adj, lines[i..]) == None
    ensures ParseEdge(lines[i]).Some? ==>
              ReadEdges(adj, lines[i..]) == ReadEdges(AddEdge(adj, ParseEdge(lines[i]).value), lines[i + 1..])
  {
    assert lines[i..][0] == lines[i] && lines[i..][1..] == lines[i + 1..];
  }

  /** One key of the write loop: its row, then the keys after it. */
  lemma WriteStep(adj: map<int, set<int>>, keys: seq<int>, w0: seq<string>, written: seq<string>)
    requires keys != [] && keys[0] in adj
    requires written == w0 + Lines(Row(keys[0], Ascending(adj[keys[0]])))
    ensures written + Lines(EmitKeys(adj, keys[1..])) == w0 + Lines(EmitKeys(adj, keys))
  {
    var row, more := Row(keys[0], Ascending(adj[keys[0]])), EmitKeys(adj, keys[1..]);
    assert EmitKeys(adj, keys) == row + more;
    EachShift(EdgeLine, w0, written, row, more);
  }

  lemma IncreasingDrop(keys: seq<int>)
    requires keys != [] && Increasing(keys)
    ensures Increasing(keys[1..])
  {
    forall i, j | 0 <= i < j < |keys[1..]| ensures keys[1..][i] < keys[1..][j] {
      assert keys[1..][i] == keys[i + 1] && keys[1..][j] == keys[j + 1];
    }
  }

  /** The keys after the first of a strictly increasing list are keys other than the first. */
  lemma IncreasingTail(keys: seq<int>, k: int)
    requires keys != [] && Increasing(keys) && k in keys[1..]
    ensures k in keys && k != keys[0]
  {
    var j :| 0 <= j < |keys[1..]| && keys[1..][j] == k;
    assert keys[j + 1] == k;
  }

  /** One step of the sort: the least element first. */
  lemma AscendingStep(s: set<int>, m: int)
    requires m in s && forall x :: x in s ==> m <= x
    ensures Ascending(s) == [m] + Ascending(s - {m})
  {
    var least := Min(s);
    assert m <= least && least <= m;
  }

  /** The inner write loop: one line per neighbour, in the given order. */
  method WriteRow(written0: seq<string>, left: int, rights: seq<int>) returns (written: seq<string>)
    ensures written == written0 + Lines(Row(left, rights))
  {
    written := written0;
    var j := 0;
    while j < |rights|
      invariant 0 <= j <= |rights|
      invariant written + Lines(Row(left, rights[j..])) == written0 + Lines(Row(left, rights))
    {
      assert rights[j..][0] == rights[j] && rights[j..][1..] == rights[j + 1..];
      assert Row(left, rights[j..]) != [];
      written := written + [EdgeLine((left, rights[j]))];
      j := j + 1;
    }
    assert rights[j..] == [];
  }

  /** `Collections.sort` of a key set, or the iteration order of a `TreeSet`. */
  method SortAscending(s: set<int>) returns (r: seq<int>)
    ensures r == Ascending(s)
  {
    r := [];
    var rest := s;
    while rest != {}
      invariant r + Ascending(rest) == Ascending(s)
      decreases |rest|
    {
      ghost var least := Min(rest);
      assert least in rest && forall x :: x in rest ==> least <= x;
      var m :| m in rest && forall x :: x in rest ==> m <= x;
      AscendingStep(rest, m);
      AppendAssoc(r, [m], Ascending(rest - {m}));
      r := r + [m];
      rest := rest - {m};
    }
  }

  /** The run data `prepare` reads: the loaded graph's vertex path and the graph's counts. */
  datatype RunSpecification = RunSpecification(vertexPath: string, numberOfVertices: int, numberOfEdges: int)

  /** The one line of the partition index file: partition 0 holds every vertex and edge, from offset 0. */
  function GpiLine(vertices: int, edges: int): string {
    "0, " + LongToString(vertices) + ", " + LongToString(edges) + ", " + "0"
  }

  /** The files after `prepare`: the index file is added only when it is missing. */
  function Prepared(files: map<string, seq<string>>, run: RunSpecification): (r: map<string, seq<string>>)
    ensures r.Keys == files.Keys + {run.vertexPath + ".gpi"}
    ensures forall p :: p in files ==> r[p] == files[p]
    ensures run.vertexPath + ".gpi" !in files ==> r[run.vertexPath + ".gpi"] == [GpiLine(run.numberOfVertices, run.numberOfEdges)]
  {
    var gpiPath := run.vertexPath + ".gpi";
    if gpiPath in files then files else files[gpiPath := [GpiLine(run.numberOfVertices, run.numberOfEdges)]]
  }

  /** `prepare`: writes the partition index file next to the vertex file unless it exists. */
  method Prepare(run: RunSpecification, fs: FileSystem)
    modifies fs
    ensures fs.files == Prepared(old(fs.files), run)
  {
    var gpiPath := run.vertexPath + ".gpi";
    if gpiPath in fs.files {
      return;
    }
    fs.files := fs.files[gpiPath := [GpiLine(run.numberOfVertices, run.numberOfEdges)]];
  }

  // ---------------------------------------------------------------------------
  // Properties
  // ---------------------------------------------------------------------------

  /** Preparing twice is preparing once. */
  lemma PrepareIdempotent(files: map<string, seq<string>>, run: RunSpecification)
    ensures Prepared(Prepared(files, run), run) == Prepared(files, run)
  {
  }

  /** The read loop is the parse of every line followed by adding the edges in order. */
  lemma {:induction false} ReadIsParseThenAdd(adj: map<int, set<int>>, lines: seq<string>)
    ensures ReadEdges(adj, lines) == if ParseEdges(lines).Some? then Some(AddAll(adj, ParseEdges(lines).value)) else None
    decreases |lines|
  {
    if lines != [] {
      match ParseEdge(lines[0])
      case None =>
      case Some(e) =>
        ReadIsParseThenAdd(AddEdge(adj, e), lines[1..]);
        if ParseEdges(lines[1..]).Some? {
          assert ([e] + ParseEdges(lines[1..]).value)[1..] == ParseEdges(lines[1..]).value;
        }
    }
  }

  /** The edge `es[k]` read in either direction. */
  predicate Joins(es: seq<Edge>, x: int, y: int) {
    exists k :: 0 <= k < |es| && (es[k] == (x, y) || es[k] == (y, x))
  }

  /** One edge: the neighbour sets grow by the edge in both directions and by nothing else. */
  lemma AddEdgeNeighbours(adj: map<int, set<int>>, e: Edge, x: int, y: int)
    ensures y in Neighbours(AddEdge(adj, e), x) <==> y in Neighbours(adj, x) || e == (x, y) || e == (y, x)
    ensures x in AddEdge(adj, e) <==> x in adj || x == e.0 || x == e.1
  {
  }

  /** Symmetric closure: `y` is a neighbour of `x` exactly when some edge joins them, either way round. */
  lemma {:induction false} AddAllNeighbours(adj: map<int, set<int>>, es: seq<Edge>, x: int, y: int)
    ensures y in Neighbours(AddAll(adj, es), x) <==> y in Neighbours(adj, x) || Joins(es, x, y)
    decreases |es|
  {
    if es != [] {
      AddAllNeighbours(AddEdge(adj, es[0]), es[1..], x, y);
      AddEdgeNeighbours(adj, es[0], x, y);
      JoinsCons(es, x, y);
    }
  }

  lemma JoinsCons(es: seq<Edge>, x: int, y: int)
    requires es != []
    ensures Joins(es, x, y) <==> es[0] == (x, y) || es[0] == (y, x) || Joins(es[1..], x, y)
  {
    if Joins(es[1..], x, y) {
      var k :| 0 <= k < |es[1..]| && (es[1..][k] == (x, y) || es[1..][k] == (y, x));
      assert es[k + 1] == es[1..][k];
    }
    if Joins(es, x, y) {
      var k :| 0 <= k < |es| && (es[k] == (x, y) || es[k] == (y, x));
      if k > 0 {
        assert es[1..][k - 1] == es[k];
      }
    }
  }

  /** `x` is an end of some edge. */
  predicate Touches(es: seq<Edge>, x: int) {
    exists k :: 0 <= k < |es| && (es[k].0 == x || es[k].1 == x)
  }

  lemma TouchesCons(es: seq<Edge>, x: int)
    requires es != []
    ensures Touches(es, x) <==> es[0].0 == x || es[0].1 == x || Touches(es[1..], x)
  {
    if Touches(es[1..], x) {
      var k :| 0 <= k < |es[1..]| && (es[1..][k].0 == x || es[1..][k].1 == x);
      assert es[k + 1] == es[1..][k];
    }
    if Touches(es, x) {
      var k :| 0 <= k < |es| && (es[k].0 == x || es[k].1 == x);
      if k > 0 {
        assert es[1..][k - 1] == es[k];
      }
    }
  }

  /** Both ends of every edge become keys, and nothing else does. */
  lemma {:induction false} AddAllKeys(adj: map<int, set<int>>, es: seq<Edge>, x: int)
    ensures x in AddAll(adj, es) <==> x in adj || Touches(es, x)
    decreases |es|
  {
    if es != [] {
      AddAllKeys(AddEdge(adj, es[0]), es[1..], x);
      AddEdgeNeighbours(adj, es[0], x, x);
      TouchesCons(es, x);
    }
  }

  lemma {:induction false} RowMembers(left: int, rights: seq<int>, e: Edge)
    ensures e in Row(left, rights) <==> e.0 == left && e.1 in rights
    decreases |rights|
  {
    if rights != [] {
      RowMembers(left, rights[1..], e);
      assert rights == [rights[0]] + rights[1..];
    }
  }

  /** A pair is written exactly when its right end is in the set of its left end, a key written. */
  lemma {:induction false} EmitKeysMembers(adj: map<int, set<int>>, keys: seq<int>, e: Edge)
    ensures e in EmitKeys(adj, keys) <==> e.0 in keys && e.1 in Neighbours(adj, e.0)
    decreases |keys|
  {
    if keys != [] {
      EmitKeysMembers(adj, keys[1..], e);
      RowMembers(keys[0], Ascending(Neighbours(adj, keys[0])), e);
      AscendingFacts(Neighbours(adj, keys[0]));
      assert keys == [keys[0]] + keys[1..];
    }
  }

  /** The output order: strictly ascending by left end, then by right end. */
  predicate Before(a: Edge, b: Edge) {
    a.0 < b.0 || (a.0 == b.0 && a.1 < b.1)
  }

  predicate InOrder(es: seq<Edge>) {
    forall i, j :: 0 <= i < j < |es| ==> Before(es[i], es[j])
  }

  lemma {:induction false} RowInOrder(left: int, rights: seq<int>)
    requires Increasing(rights)
    ensures InOrder(Row(left, rights))
    decreases |rights|
  {
    if rights != [] {
      RowInOrder(left, rights[1..]);
      var r := Row(left, rights);
      forall j | 0 < j < |r| ensures Before(r[0], r[j]) {
        RowMembers(left, rights[1..], r[j]);
        assert r[j] in Row(left, rights[1..]);
      }
    }
  }

  lemma {:induction false} EmitKeysInOrder(adj: map<int, set<int>>, keys: seq<int>)
    requires Increasing(keys)
    ensures InOrder(EmitKeys(adj, keys))
    decreases |keys|
  {
    if keys != [] {
      var row := Row(keys[0], Ascending(Neighbours(adj, keys[0])));
      var tail := EmitKeys(adj, keys[1..]);
      AscendingFacts(Neighbours(adj, keys[0]));
      RowInOrder(keys[0], Ascending(Neighbours(adj, keys[0])));
      EmitKeysInOrder(adj, keys[1..]);
      forall i, j | 0 <= i < |row| && 0 <= j < |tail| ensures Before(row[i], tail[j]) {
        RowMembers(keys[0], Ascending(Neighbours(adj, keys[0])), row[i]);
        EmitKeysMembers(adj, keys[1..], tail[j]);
        assert row[i] in row && tail[j] in tail;
        var q :| 0 <= q < |keys[1..]| && keys[1..][q] == tail[j].0;
        assert keys[q + 1] == tail[j].0;
      }
      assert InOrder(row + tail);
    }
  }

  /** The sum of the neighbour set sizes of `keys`. */
  ghost function Degrees(adj: map<int, set<int>>, keys: seq<int>): nat {
    if keys == [] then 0 else |Neighbours(adj, keys[0])| + Degrees(adj, keys[1..])
  }

  /** One line per element of every neighbour set. */
  lemma {:induction false} EmitKeysCount(adj: map<int, set<int>>, keys: seq<int>)
    ensures |EmitKeys(adj, keys)| == Degrees(adj, keys)
    decreases |keys|
  {
    if keys != [] {
      EmitKeysCount(adj, keys[1..]);
    }
  }

  /** The written lines parse back, by the same reader, into the pairs that were written. */
  lemma {:induction false} LinesReadBack(es: seq<Edge>)
    requires forall k :: 0 <= k < |es| ==> IsLong(es[k].0) && IsLong(es[k].1)
    ensures ParseEdges(Lines(es)) == Some(es)
    decreases |es|
  {
    if es != [] {
      var a, b := LongToString(es[0].0), LongToString(es[0].1);
      LongToStringHasNoSpace(es[0].0);
      LongToStringHasNoSpace(es[0].1);
      SplitPair(a, b);
      ParseLongToString(es[0].0);
      ParseLongToString(es[0].1);
      assert ParseEdge(EdgeLine(es[0])) == Some(es[0]);
      LinesReadBack(es[1..]);
      assert Lines(es) == [EdgeLine(es[0])] + Lines(es[1..]);
      assert [es[0]] + es[1..] == es;
    }
  }

  /**
   * The undirected output as a whole: when every input line parses, the output file reads
   * back as a strictly ascending list of pairs holding (x, y) exactly when some input edge
   * joins x and y in either direction. So every edge appears both ways, a self-loop once,
   * and no pair twice; there is one line per element of the neighbour sets.
   */
  lemma SymmetricOutput(lines: seq<string>, es: seq<Edge>)
    requires ParseEdges(lines) == Some(es)
    ensures Undirected(lines).Some?
    ensures var out := Emitted(AddAll(map[], es));
            ParseEdges(Undirected(lines).value) == Some(out) && InOrder(out) &&
            (forall x, y :: (x, y) in out <==> Joins(es, x, y)) &&
            |out| == Degrees(AddAll(map[], es), Ascending(AddAll(map[], es).Keys))
  {
    ReadIsParseThenAdd(map[], lines);
    var adj := AddAll(map[], es);
    var out := Emitted(adj);
    AscendingFacts(adj.Keys);
    EmitKeysInOrder(adj, Ascending(adj.Keys));
    EmitKeysCount(adj, Ascending(adj.Keys));
    forall x, y ensures (x, y) in out <==> Joins(es, x, y) {
      EmittedMembers(es, x, y);
    }
    forall k | 0 <= k < |out| ensures IsLong(out[k].0) && IsLong(out[k].1) {
      var x, y := out[k].0, out[k].1;
      assert (x, y) == out[k] && out[k] in out;
      EmittedMembers(es, x, y);
      JoinedLongs(lines, es, x, y);
    }
    LinesReadBack(out);
  }

  /** A pair is written exactly when some edge joins its two ends. */
  lemma EmittedMembers(es: seq<Edge>, x: int, y: int)
    ensures (x, y) in Emitted(AddAll(map[], es)) <==> Joins(es, x, y)
  {
    var adj := AddAll(map[], es);
    AscendingFacts(adj.Keys);
    EmitKeysMembers(adj, Ascending(adj.Keys), (x, y));
    AddAllNeighbours(map[], es, x, y);
    AddAllKeys(map[], es, x);
    if Joins(es, x, y) {
      var k :| 0 <= k < |es| && (es[k] == (x, y) || es[k] == (y, x));
      assert es[k].0 == x || es[k].1 == x;
    }
  }

  /** Both ends of a parsed edge are longs. */
  lemma JoinedLongs(lines: seq<string>, es: seq<Edge>, x: int, y: int)
    requires ParseEdges(lines) == Some(es) && Joins(es, x, y)
    ensures IsLong(x) && IsLong(y)
  {
    var j :| 0 <= j < |es| && (es[j] == (x, y) || es[j] == (y, x));
    ParsedLongs(lines, es, j);
  }

  /** Every parsed edge holds two longs. */
  lemma {:induction false} ParsedLongs(lines: seq<string>, es: seq<Edge>, j: nat)
    requires ParseEdges(lines) == Some(es) && j < |es|
    ensures IsLong(es[j].0) && IsLong(es[j].1)
    decreases |lines|
  {
    if j > 0 {
      ParsedLongs(lines[1..], es[1..], j - 1);
    }
  }
}
