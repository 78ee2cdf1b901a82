/**
 * `GraphalyticsOrderedEdgeList`: reads the binary ordered edge list of one partition
 * (records of a vertex id, a neighbour count and the neighbour ids, all big-endian) into
 * a queue of vertices, fills the static id tables, and translates each neighbour id to
 * the index of its vertex.
 */
module OrderedEdgeList {
  import opened Wrappers
  import opened Numeric
  import opened BigEndian

  /** Exceptions the load lets through; `IOException` (and so end of file) is caught. */
  datatype Exception = NegativeArraySize | NullPointer

  /** A vertex of the queue: its id (the record's index) and its neighbour ids. */
  datatype OelVertex = OelVertex(id: int, neighbors: seq<int>)

  /** The state a decode leaves: the id table, the id map, the queue, and what was thrown. */
  datatype Decoded = Decoded(ids: seq<int>, idMap: map<int, int>, oel: seq<OelVertex>, failure: Option<Exception>)

  /** The table `new long[count]` starts as. */
  function Zeros(count: nat): (r: seq<int>)
    ensures |r| == count && forall k :: 0 <= k < count ==> r[k] == 0
  {
    seq(count, _ => 0)
  }

  /** `n` longs read one after another from `pos`. */
  function ReadLongs(file: seq<byte>, pos: nat, n: nat): (r: seq<int>)
    requires pos + 8 * n <= |file|
    ensures |r| == n
  {
    if n == 0 then [] else ReadLongs(file, pos, n - 1) + [ReadLong(file, pos + 8 * (n - 1))]
  }

  /** How far one record at a position could be read before the file ended. */
  datatype Parse =
    | EndOfFile                          // not even the id
    | IdOnly(id: int)                    // the id, but not the whole count
    | NegativeCount(id: int)             // a negative count: `new long[n]` throws
    | ShortNeighbors(id: int)            // the id and count, but not all neighbours
    | Whole(id: int, neighbors: seq<int>, next: nat)

  /** One record read at `pos`: id, neighbour count, neighbours. */
  function ParseRecord(file: seq<byte>, pos: nat): (p: Parse)
    ensures p.Whole? ==> pos + 12 <= p.next <= |file|
  {
    if pos + 8 > |file| then EndOfFile
    else
      var id := ReadLong(file, pos);
      if pos + 12 > |file| then IdOnly(id)
      else
        var n := ReadInt(file, pos + 8);
        if n < 0 then NegativeCount(id)
        else if pos + 12 + 8 * n > |file| then ShortNeighbors(id)
        else Whole(id, ReadLongs(file, pos + 12, n), pos + 12 + 8 * n)
  }

  /** The record reader over a file: the parse of the record at each position. */
  function Reader(file: seq<byte>): nat -> Parse {
    (pos: nat) => ParseRecord(file, pos)
  }

  /**
   * The records a loop attempts with the reader `read` from position `pos`, at most `n` of
   * them: whole records one after another, then the first one that is not whole, if any.
   */
  function Attempts(read: nat -> Parse, pos: nat, n: nat): (ps: seq<Parse>)
    ensures |ps| <= n
    decreases n
  {
    if n == 0 then []
    else
      var p := read(pos);
      if p.Whole? then [p] + Attempts(read, p.next, n - 1) else [p]
  }

  /** The records the loop of `loadFromBoelFile` attempts from byte `pos`, at most `n` of them. */
  function ParseRecords(file: seq<byte>, pos: nat, n: nat): (ps: seq<Parse>)
    ensures |ps| <= n
  {
    Attempts(Reader(file), pos, n)
  }

  /**
   * The record loop of `loadFromBoelFile` over the attempted records, from record `i` on:
   * each record stores its id in the table and maps it to `i` as soon as the id is read;
   * a record cut short by the end of the file ends the loop, keeping what was already
   * stored; a negative neighbour count throws.
   */
  function DecodeFrom(ps: seq<Parse>, i: nat, count: nat,
                      ids: seq<int>, m: map<int, int>, oel: seq<OelVertex>): (d: Decoded)
    requires i + |ps| <= count == |ids|
    ensures |d.ids| == count
    decreases ps
  {
    if ps == [] then Decoded(ids, m, oel, None)
    else
      match ps[0]
      case EndOfFile => Decoded(ids, m, oel, None)
      case IdOnly(id) => Decoded(ids[i := id], m[id := i], oel, None)
      case ShortNeighbors(id) => Decoded(ids[i := id], m[id := i], oel, None)
      case NegativeCount(id) => Decoded(ids[i := id], m[id := i], oel, Some(NegativeArraySize))
      case Whole(id, ns, _) =>
        DecodeFrom(ps[1..], i + 1, count, ids[i := id], m[id := i], oel + [OelVertex(i, ns)])
  }

  /** The record loop from the start of the file, into a new table of `count` zeros. */
  function Decode(file: seq<byte>, count: nat, m0: map<int, int>, oel0: seq<OelVertex>): (d: Decoded)
    ensures |d.ids| == count
  {
    DecodeFrom(ParseRecords(file, 0, count), 0, count, Zeros(count), m0, oel0)
  }


  /**
   * The translation of one neighbour array in place: each id is replaced by its map
   * entry, up to the first id the map lacks, where unboxing `null` throws.
   */
  function TranslateNeighbors(ns: seq<int>, m: map<int, int>): (r: (seq<int>, bool))
    ensures |r.0| == |ns|
  {
    if ns == [] then ([], true)
    else if ns[0] !in m then (ns, false)
    else
      var t := TranslateNeighbors(ns[1..], m);
      ([m[ns[0]]] + t.0, t.1)
  }

  /** The translation loop over the queue, vertex by vertex, stopping at the first failure. */
  function TranslateAll(oel: seq<OelVertex>, m: map<int, int>): (r: (seq<OelVertex>, bool))
    ensures |r.0| == |oel|
  {
    if oel == [] then ([], true)
    else
      var t := TranslateNeighbors(oel[0].neighbors, m);
      var v := OelVertex(oel[0].id, t.0);
      if !t.1 then ([v] + oel[1..], false)
      else
        var rest := TranslateAll(oel[1..], m);
        ([v] + rest.0, rest.1)
  }

  /** What `loadFromBoelFile` leaves: `table` is `None` when the static table is not replaced. */
  datatype Loaded = Loaded(table: Option<seq<int>>, idMap: map<int, int>, oel: seq<OelVertex>, failure: Option<Exception>)

  function TranslationFailure(ok: bool): Option<Exception> {
    if ok then None else Some(NullPointer)
  }

  /**
   * `loadFromBoelFile` for the file's bytes (`None`: it cannot be opened), the vertex count,
   * and the map and queue held before.
   */
  function Load(file: Option<seq<byte>>, count: int, m0: map<int, int>, oel0: seq<OelVertex>): (l: Loaded)
    ensures l.table.Some? ==> count >= 0 && |l.table.value| == count
  {
    if file.None? then
      var t := TranslateAll(oel0, m0);
      Loaded(None, m0, t.0, TranslationFailure(t.1))
    else if count < 0 then Loaded(None, m0, oel0, Some(NegativeArraySize))
    else
      var d := Decode(file.value, count, m0, oel0);
      if d.failure.Some? then Loaded(Some(d.ids), d.idMap, d.oel, d.failure)
      else
        var t := TranslateAll(d.oel, d.idMap);
        Loaded(Some(d.ids), d.idMap, t.0, TranslationFailure(t.1))
  }

  // ---------------------------------------------------------------------------
  // Translation

  /** Translation succeeds exactly when the map knows every neighbour, and then maps each one. */
  lemma {:induction false} TranslateNeighborsMeaning(ns: seq<int>, m: map<int, int>)
    ensures TranslateNeighbors(ns, m).1 <==> forall k :: 0 <= k < |ns| ==> ns[k] in m
    ensures TranslateNeighbors(ns, m).1 ==>
              forall k :: 0 <= k < |ns| ==> TranslateNeighbors(ns, m).0[k] == m[ns[k]]
  {
    if ns != [] && ns[0] in m {
      TranslateNeighborsMeaning(ns[1..], m);
      forall k | 0 < k < |ns|
        ensures ns[k] == ns[1..][k - 1]
      {
      }
    }
  }

  /** The queue translates exactly when every neighbour of every vertex is in the map; ids are kept. */
  lemma {:induction false} TranslateAllMeaning(oel: seq<OelVertex>, m: map<int, int>)
    ensures TranslateAll(oel, m).1 <==>
              forall k, j :: 0 <= k < |oel| && 0 <= j < |oel[k].neighbors| ==> oel[k].neighbors[j] in m
    ensures forall k :: 0 <= k < |oel| ==>
              TranslateAll(oel, m).0[k].id == oel[k].id &&
              |TranslateAll(oel, m).0[k].neighbors| == |oel[k].neighbors|
    ensures TranslateAll(oel, m).1 ==>
              forall k, j :: 0 <= k < |oel| && 0 <= j < |oel[k].neighbors| ==>
                TranslateAll(oel, m).0[k].neighbors[j] == m[oel[k].neighbors[j]]
  {
    if oel != [] {
      var r := TranslateAll(oel, m);
      var t := TranslateNeighbors(oel[0].neighbors, m);
      TranslateNeighborsMeaning(oel[0].neighbors, m);
      TranslateAllMeaning(oel[1..], m);
      var rest := TranslateAll(oel[1..], m);
      forall k | 0 < k < |oel|
        ensures oel[k] == oel[1..][k - 1]
        ensures r.0[k] == (if t.1 then rest.0[k - 1] else oel[k])
      {
      }
    }
  }

  // ---------------------------------------------------------------------------
  // Files written record by record

  /** A record of the file: a vertex id and its neighbour ids. */
  datatype Record = Record(id: int, neighbors: seq<int>)

  predicate Encodable(r: Record) {
    IsLong(r.id) && |r.neighbors| <= INT_MAX && forall k :: 0 <= k < |r.neighbors| ==> IsLong(r.neighbors[k])
  }

  predicate AllEncodable(rs: seq<Record>) {
    forall k :: 0 <= k < |rs| ==> Encodable(rs[k])
  }

  function LongsBytes(ns: seq<int>): (r: seq<byte>)
    requires forall k :: 0 <= k < |ns| ==> IsLong(ns[k])
    ensures |r| == 8 * |ns|
  {
    if ns == [] then [] else LongsBytes(ns[..|ns| - 1]) + LongBytes(ns[|ns| - 1])
  }

  /** The byte length of a record. */
  function RecordSize(r: Record): nat {
    12 + 8 * |r.neighbors|
  }

  /** The bytes of one record as `DataOutputStream` would write them: id, neighbour count, neighbours. */
  function EncodeRecord(r: Record): (bs: seq<byte>)
    requires Encodable(r)
    ensures |bs| == RecordSize(r)
  {
    LongBytes(r.id) + IntBytes(|r.neighbors|) + LongsBytes(r.neighbors)
  }

  function EncodeRecords(rs: seq<Record>): seq<byte>
    requires AllEncodable(rs)
  {
    if rs == [] then [] else EncodeRecord(rs[0]) + EncodeRecords(rs[1..])
  }

  /** `file` holds the bytes `bs` from `pos` on. */
  predicate At(file: seq<byte>, pos: nat, bs: seq<byte>)
    decreases |bs|
  {
    if bs == [] then pos <= |file|
    else pos < |file| && file[pos] == bs[0] && At(file, pos + 1, bs[1..])
  }

  /** `At` is slice equality. */
  lemma {:induction false} AtSlice(file: seq<byte>, pos: nat, bs: seq<byte>)
    ensures At(file, pos, bs) <==> pos + |bs| <= |file| && file[pos..pos + |bs|] == bs
    decreases |bs|
  {
    if bs != [] {
      AtSlice(file, pos + 1, bs[1..]);
      if pos + |bs| <= |file| {
        var s := file[pos..pos + |bs|];
        assert s[0] == file[pos] && s[1..] == file[pos + 1..pos + |bs|];
        if s == bs {
          assert s[1..] == bs[1..];
        }
        if file[pos] == bs[0] && file[pos + 1..pos + |bs|] == bs[1..] {
          assert s == [s[0]] + s[1..] == [bs[0]] + bs[1..] == bs;
        }
      }
    }
  }

  lemma AtSplit(file: seq<byte>, pos: nat, a: seq<byte>, b: seq<byte>)
    requires At(file, pos, a + b)
    ensures At(file, pos, a) && At(file, pos + |a|, b)
  {
    AtSlice(file, pos, a + b);
    AtSlice(file, pos, a);
    AtSlice(file, pos + |a|, b);
    assert file[pos..pos + |a|] == (a + b)[..|a|] == a;
    assert file[pos + |a|..pos + |a| + |b|] == (a + b)[|a|..] == b;
  }

  /** Two byte runs written one after the other. */
  lemma AtAppend(a: seq<byte>, b: seq<byte>)
    ensures At(a + b, 0, a) && At(a + b, |a|, b)
  {
    AtSlice(a + b, 0, a);
    AtSlice(a + b, |a|, b);
    assert (a + b)[0..|a|] == a;
    assert (a + b)[|a|..|a| + |b|] == b;
  }

  /** A long read where it was written is given back. */
  lemma ReadLongWritten(file: seq<byte>, pos: nat, x: int)
    requires IsLong(x) && At(file, pos, LongBytes(x))
    ensures pos + 8 <= |file| && ReadLong(file, pos) == x
  {
    AtSlice(file, pos, LongBytes(x));
    ReadLongAt(file, pos, x);
  }

  /** An int read where it was written is given back. */
  lemma ReadIntWritten(file: seq<byte>, pos: nat, x: int)
    requires IsInt(x) && At(file, pos, IntBytes(x))
    ensures pos + 4 <= |file| && ReadInt(file, pos) == x
  {
    AtSlice(file, pos, IntBytes(x));
    ReadIntAt(file, pos, x);
  }

  /** Longs read where they were written are given back. */
  lemma {:induction false} ReadLongsAt(file: seq<byte>, pos: nat, ns: seq<int>)
    requires forall k :: 0 <= k < |ns| ==> IsLong(ns[k])
    requires At(file, pos, LongsBytes(ns))
    ensures pos + 8 * |ns| <= |file| && ReadLongs(file, pos, |ns|) == ns
  {
    AtSlice(file, pos, LongsBytes(ns));
    if ns != [] {
      var n := |ns|;
      var init, last := ns[..n - 1], ns[n - 1];
      AtSplit(file, pos, LongsBytes(init), LongBytes(last));
      ReadLongsAt(file, pos, init);
      ReadLongWritten(file, pos + 8 * (n - 1), last);
      assert ns == init + [last];
    }
  }

  /** A whole record is parsed back as written. */
  lemma ParseWholeRecord(file: seq<byte>, pos: nat, r: Record)
    requires Encodable(r) && At(file, pos, EncodeRecord(r))
    ensures ParseRecord(file, pos) == Whole(r.id, r.neighbors, pos + RecordSize(r))
  {
    var n := |r.neighbors|;
    AtSplit(file, pos, LongBytes(r.id) + IntBytes(n), LongsBytes(r.neighbors));
    AtSplit(file, pos, LongBytes(r.id), IntBytes(n));
    ReadLongWritten(file, pos, r.id);
    ReadIntWritten(file, pos + 8, n);
    ReadLongsAt(file, pos + 12, r.neighbors);
  }

  /**
   * A record cut short by the end of the file: the id is read once its eight bytes are
   * there, but no vertex comes of it.
   */
  lemma TruncatedRecord(file: seq<byte>, pos: nat, r: Record, cut: nat)
    requires Encodable(r) && cut < RecordSize(r)
    requires At(file, pos, EncodeRecord(r)[..cut]) && |file| == pos + cut
    ensures ParseRecord(file, pos) ==
              if cut < 8 then EndOfFile else if cut < 12 then IdOnly(r.id) else ShortNeighbors(r.id)
  {
    var n := |r.neighbors|;
    var e := EncodeRecord(r);
    if cut >= 8 {
      assert e[..cut] == LongBytes(r.id) + e[8..cut];
      AtSplit(file, pos, LongBytes(r.id), e[8..cut]);
      ReadLongWritten(file, pos, r.id);
      if cut >= 12 {
        assert e[..cut] == LongBytes(r.id) + IntBytes(n) + e[12..cut];
        AtSplit(file, pos, LongBytes(r.id) + IntBytes(n), e[12..cut]);
        AtSplit(file, pos, LongBytes(r.id), IntBytes(n));
        ReadIntWritten(file, pos + 8, n);
      }
    }
  }

  /** The parse results of whole records `rs` held one after another from `pos`. */
  function WholesOf(pos: nat, rs: seq<Record>): (ps: seq<Parse>)
    ensures |ps| == |rs|
    decreases rs
  {
    if rs == [] then []
    else [Whole(rs[0].id, rs[0].neighbors, pos + RecordSize(rs[0]))] + WholesOf(pos + RecordSize(rs[0]), rs[1..])
  }

  /** A run of whole records is its first record followed by the rest. */
  lemma WholesCons(pos: nat, rs: seq<Record>, ps: seq<Parse>, more: seq<Parse>, tail: seq<Parse>)
    requires rs != []
    requires ps == [Whole(rs[0].id, rs[0].neighbors, pos + RecordSize(rs[0]))] + more
    requires more == WholesOf(pos + RecordSize(rs[0]), rs[1..]) + tail
    ensures ps == WholesOf(pos, rs) + tail
  {
    var w := Whole(rs[0].id, rs[0].neighbors, pos + RecordSize(rs[0]));
    assert WholesOf(pos, rs) == [w] + WholesOf(pos + RecordSize(rs[0]), rs[1..]);
    assert [w] + (WholesOf(pos + RecordSize(rs[0]), rs[1..]) + tail) == ([w] + WholesOf(pos + RecordSize(rs[0]), rs[1..])) + tail;
  }

  /** The reader finds whole records `rs` one after another from `pos`. */
  predicate WholesAt(read: nat -> Parse, pos: nat, rs: seq<Record>)
    decreases rs
  {
    rs == [] ||
    (read(pos) == Whole(rs[0].id, rs[0].neighbors, pos + RecordSize(rs[0])) &&
     WholesAt(read, pos + RecordSize(rs[0]), rs[1..]))
  }

  /** Where the records `rs` read from `pos` end. */
  function EndOf(pos: nat, rs: seq<Record>): nat
    decreases rs
  {
    if rs == [] then pos else EndOf(pos + RecordSize(rs[0]), rs[1..])
  }

  /** Whole records found by the reader are attempted one after another, then the loop goes on after them. */
  lemma {:induction false} AttemptsWholes(read: nat -> Parse, pos: nat, rs: seq<Record>, n: nat)
    requires WholesAt(read, pos, rs) && |rs| <= n
    ensures Attempts(read, pos, n) == WholesOf(pos, rs) + Attempts(read, EndOf(pos, rs), n - |rs|)
    decreases rs
  {
    if rs != [] {
      var next := pos + RecordSize(rs[0]);
      AttemptsWholes(read, next, rs[1..], n - 1);
      assert (n - 1) - |rs[1..]| == n - |rs|;
      WholesCons(pos, rs, Attempts(read, pos, n), Attempts(read, next, n - 1),
                 Attempts(read, EndOf(pos, rs), n - |rs|));
    }
  }

  /** The first of a run of encoded records is read back whole, and the rest follow it. */
  lemma EncodedWholeStep(file: seq<byte>, pos: nat, rs: seq<Record>)
    requires AllEncodable(rs) && rs != [] && At(file, pos, EncodeRecords(rs))
    ensures Reader(file)(pos) == Whole(rs[0].id, rs[0].neighbors, pos + RecordSize(rs[0]))
    ensures At(file, pos + RecordSize(rs[0]), EncodeRecords(rs[1..]))
    ensures |EncodeRecords(rs)| == RecordSize(rs[0]) + |EncodeRecords(rs[1..])|
  {
    AtSplit(file, pos, EncodeRecord(rs[0]), EncodeRecords(rs[1..]));
    ParseWholeRecord(file, pos, rs[0]);
  }

  /** Encoded records are read back as whole records where they were written. */
  lemma {:induction false} EncodedWholesAt(file: seq<byte>, pos: nat, rs: seq<Record>)
    requires AllEncodable(rs) && At(file, pos, EncodeRecords(rs))
    ensures WholesAt(Reader(file), pos, rs) && EndOf(pos, rs) == pos + |EncodeRecords(rs)|
    decreases rs
  {
    if rs != [] {
      EncodedWholeStep(file, pos, rs);
      EncodedWholesAt(file, pos + RecordSize(rs[0]), rs[1..]);
    }
  }

  /** Encoded records are attempted as whole records, then the loop goes on after them. */
  lemma ParseEncoded(file: seq<byte>, pos: nat, rs: seq<Record>, n: nat)
    requires AllEncodable(rs) && At(file, pos, EncodeRecords(rs)) && |rs| <= n
    ensures EndOf(pos, rs) == pos + |EncodeRecords(rs)|
    ensures ParseRecords(file, pos, n) == WholesOf(pos, rs) + ParseRecords(file, EndOf(pos, rs), n - |rs|)
  {
    EncodedWholesAt(file, pos, rs);
    AttemptsWholes(Reader(file), pos, rs, n);
  }

  /** A record that is not whole is the last one attempted. */
  lemma ParseRecordsNotWhole(file: seq<byte>, pos: nat, n: nat)
    requires n > 0 && !ParseRecord(file, pos).Whole?
    ensures ParseRecords(file, pos, n) == [ParseRecord(file, pos)]
  {
  }

  /** At the end of the file nothing more is decoded. */
  lemma DecodeAtEnd(file: seq<byte>, pos: nat, n: nat,
                    i: nat, count: nat, ids: seq<int>, m: map<int, int>, oel: seq<OelVertex>)
    requires |file| <= pos && i + n <= count == |ids|
    ensures DecodeFrom(ParseRecords(file, pos, n), i, count, ids, m, oel) == Decoded(ids, m, oel, None)
  {
    if n > 0 {
      assert ParseRecord(file, pos) == EndOfFile;
      ParseRecordsNotWhole(file, pos, n);
    }
  }

  /** The table after records `rs` were read as records `i`, `i + 1`, .... */
  function PutIds(ids: seq<int>, i: nat, rs: seq<Record>): (r: seq<int>)
    requires i + |rs| <= |ids|
    ensures |r| == |ids|
    decreases rs
  {
    if rs == [] then ids else PutIds(ids[i := rs[0].id], i + 1, rs[1..])
  }

  /** The id map after records `rs` were read as records `i`, `i + 1`, .... */
  function PutMap(m: map<int, int>, i: nat, rs: seq<Record>): map<int, int>
    decreases rs
  {
    if rs == [] then m else PutMap(m[rs[0].id := i], i + 1, rs[1..])
  }

  /** The queue entries for records `rs` read as records `i`, `i + 1`, .... */
  function Indexed(i: nat, rs: seq<Record>): (r: seq<OelVertex>)
    ensures |r| == |rs|
    decreases rs
  {
    if rs == [] then [] else [OelVertex(i, rs[0].neighbors)] + Indexed(i + 1, rs[1..])
  }

  /** Whole records are decoded one after another into the table, the map and the queue. */
  /** After a whole record, the loop goes on with the next one. */
  lemma DecodeWholeStep(ps: seq<Parse>, i: nat, count: nat, ids: seq<int>, m: map<int, int>, oel: seq<OelVertex>)
    requires ps != [] && ps[0].Whole? && i + |ps| <= count == |ids|
    ensures DecodeFrom(ps, i, count, ids, m, oel)
            == DecodeFrom(ps[1..], i + 1, count, ids[i := ps[0].id], m[ps[0].id := i], oel + [OelVertex(i, ps[0].neighbors)])
  {
  }

  /** The first of a run of whole records, and the rest. */
  lemma WholesHead(pos: nat, rs: seq<Record>, tail: seq<Parse>)
    requires rs != []
    ensures (WholesOf(pos, rs) + tail)[0] == Whole(rs[0].id, rs[0].neighbors, pos + RecordSize(rs[0]))
    ensures (WholesOf(pos, rs) + tail)[1..] == WholesOf(pos + RecordSize(rs[0]), rs[1..]) + tail
  {
    assert WholesOf(pos, rs) == [Whole(rs[0].id, rs[0].neighbors, pos + RecordSize(rs[0]))] + WholesOf(pos + RecordSize(rs[0]), rs[1..]);
  }

  lemma IndexedCons(oel: seq<OelVertex>, i: nat, rs: seq<Record>)
    requires rs != []
    ensures oel + [OelVertex(i, rs[0].neighbors)] + Indexed(i + 1, rs[1..]) == oel + Indexed(i, rs)
  {
  }

  /** Whole records are decoded one after another into the table, the map and the queue. */
  lemma {:induction false} DecodeWholes(pos: nat, rs: seq<Record>, tail: seq<Parse>,
                                        i: nat, count: nat, ids: seq<int>, m: map<int, int>, oel: seq<OelVertex>)
    requires i + |rs| + |tail| <= count == |ids|
    ensures DecodeFrom(WholesOf(pos, rs) + tail, i, count, ids, m, oel)
            == DecodeFrom(tail, i + |rs|, count, PutIds(ids, i, rs), PutMap(m, i, rs), oel + Indexed(i, rs))
    decreases rs
  {
    if rs == [] {
      assert WholesOf(pos, rs) + tail == tail;
      assert oel + Indexed(i, rs) == oel;
    } else {
      var r := rs[0];
      WholesHead(pos, rs, tail);
      DecodeWholeStep(WholesOf(pos, rs) + tail, i, count, ids, m, oel);
      DecodeWholes(pos + RecordSize(r), rs[1..], tail, i + 1, count, ids[i := r.id], m[r.id := i], oel + [OelVertex(i, r.neighbors)]);
      IndexedCons(oel, i, rs);
    }
  }

  /**
   * Decoding a file made of whole records gives back every record, whether the vertex
   * count stops the loop after the last one or the end of the file does.
   */
  lemma DecodeEncodedRecords(rs: seq<Record>, count: nat, m: map<int, int>, oel: seq<OelVertex>)
    requires AllEncodable(rs) && |rs| <= count
    ensures Decode(EncodeRecords(rs), count, m, oel)
            == Decoded(PutIds(Zeros(count), 0, rs), PutMap(m, 0, rs), oel + Indexed(0, rs), None)
  {
    var file := EncodeRecords(rs);
    assert At(file, 0, file) by {
      AtAppend(file, []);
      assert file + [] == file;
    }
    ParseEncoded(file, 0, rs, count);
    var tail := ParseRecords(file, EndOf(0, rs), count - |rs|);
    DecodeWholes(0, rs, tail, 0, count, Zeros(count), m, oel);
    DecodeAtEnd(file, EndOf(0, rs), count - |rs|, |rs|, count, PutIds(Zeros(count), 0, rs), PutMap(m, 0, rs), oel + Indexed(0, rs));
  }

  /** Whole records followed by one cut short: the cut record's id is stored once it was read. */
  lemma DecodeWholesThenCut(rs: seq<Record>, p: Parse, count: nat, m: map<int, int>, oel: seq<OelVertex>)
    requires |rs| < count && (p.EndOfFile? || p.IdOnly? || p.ShortNeighbors?)
    ensures var d := DecodeFrom(WholesOf(0, rs) + [p], 0, count, Zeros(count), m, oel);
            var ids := PutIds(Zeros(count), 0, rs);
            var m' := PutMap(m, 0, rs);
            d.failure == None && d.oel == oel + Indexed(0, rs) &&
            d.ids == (if p.EndOfFile? then ids else ids[|rs| := p.id]) &&
            d.idMap == (if p.EndOfFile? then m' else m'[p.id := |rs|])
  {
    DecodeWholes(0, rs, [p], 0, count, Zeros(count), m, oel);
  }

  /**
   * A file that ends inside the record after `rs`: the records before it are all decoded,
   * and the cut record adds its id to the table and the map once its eight bytes are there.
   */
  lemma DecodeTruncated(rs: seq<Record>, r: Record, cut: nat, count: nat, m: map<int, int>, oel: seq<OelVertex>)
    requires AllEncodable(rs) && Encodable(r) && cut < RecordSize(r) && |rs| < count
    ensures var d := Decode(EncodeRecords(rs) + EncodeRecord(r)[..cut], count, m, oel);
            var ids := PutIds(Zeros(count), 0, rs);
            var m' := PutMap(m, 0, rs);
            d.failure == None && d.oel == oel + Indexed(0, rs) &&
            d.ids == (if cut < 8 then ids else ids[|rs| := r.id]) &&
            d.idMap == (if cut < 8 then m' else m'[r.id := |rs|])
  {
    var e := EncodeRecords(rs);
    var file := e + EncodeRecord(r)[..cut];
    var p := if cut < 8 then EndOfFile else if cut < 12 then IdOnly(r.id) else ShortNeighbors(r.id);
    assert ParseRecords(file, 0, count) == WholesOf(0, rs) + [p] by {
      AtAppend(e, EncodeRecord(r)[..cut]);
      ParseEncoded(file, 0, rs, count);
      TruncatedRecord(file, |e|, r, cut);
      ParseRecordsNotWhole(file, |e|, count - |rs|);
    }
    DecodeWholesThenCut(rs, p, count, m, oel);
  }

  lemma {:induction false} PutIdsAt(ids: seq<int>, i: nat, rs: seq<Record>, k: nat)
    requires i + |rs| <= |ids| && k < |ids|
    ensures PutIds(ids, i, rs)[k] == if i <= k < i + |rs| then rs[k - i].id else ids[k]
    decreases rs
  {
    if rs != [] {
      PutIdsAt(ids[i := rs[0].id], i + 1, rs[1..], k);
    }
  }

  lemma {:induction false} IndexedAt(i: nat, rs: seq<Record>, k: nat)
    requires k < |rs|
    ensures Indexed(i, rs)[k] == OelVertex(i + k, rs[k].neighbors)
    decreases rs
  {
    if k > 0 {
      IndexedAt(i + 1, rs[1..], k - 1);
    }
  }

  /** The map's keys: those held before and the ids of the records read. */
  lemma {:induction false} PutMapKeys(m: map<int, int>, i: nat, rs: seq<Record>, x: int)
    ensures x in PutMap(m, i, rs) <==> x in m || exists k :: 0 <= k < |rs| && rs[k].id == x
    decreases rs
  {
    if rs != [] {
      PutMapKeys(m[rs[0].id := i], i + 1, rs[1..], x);
      if exists k :: 0 <= k < |rs[1..]| && rs[1..][k].id == x {
        var k :| 0 <= k < |rs[1..]| && rs[1..][k].id == x;
        assert rs[k + 1].id == x;
      }
      if exists k :: 0 < k < |rs| && rs[k].id == x {
        var k :| 0 < k < |rs| && rs[k].id == x;
        assert rs[1..][k - 1].id == x;
      }
    }
  }

  /** A later record with the same id overwrites the entry: an id maps to its last record. */
  lemma {:induction false} PutMapLastWins(m: map<int, int>, i: nat, rs: seq<Record>, k: nat)
    requires k < |rs|
    requires forall j :: k < j < |rs| ==> rs[j].id != rs[k].id
    ensures rs[k].id in PutMap(m, i, rs) && PutMap(m, i, rs)[rs[k].id] == i + k
    decreases rs
  {
    if k == 0 {
      PutMapKeep(m[rs[0].id := i], i + 1, rs[1..], rs[0].id);
    } else {
      PutMapLastWins(m[rs[0].id := i], i + 1, rs[1..], k - 1);
    }
  }

  /** An id that no record carries keeps its entry. */
  lemma {:induction false} PutMapKeep(m: map<int, int>, i: nat, rs: seq<Record>, x: int)
    requires x in m
    requires forall j :: 0 <= j < |rs| ==> rs[j].id != x
    ensures x in PutMap(m, i, rs) && PutMap(m, i, rs)[x] == m[x]
    decreases rs
  {
    if rs != [] {
      PutMapKeep(m[rs[0].id := i], i + 1, rs[1..], x);
    }
  }

  predicate UniqueIds(rs: seq<Record>) {
    forall j, k :: 0 <= j < k < |rs| ==> rs[j].id != rs[k].id
  }

  /**
   * `d` holds records `rs` completely: record k at index k of the table and of the queue,
   * no failure, and a map that sends each record's id to its index and knows no other id.
   */
  ghost predicate HoldsComplete(rs: seq<Record>, d: Decoded) {
    d.failure == None && |d.ids| == |rs| && |d.oel| == |rs| &&
    (forall k :: 0 <= k < |rs| ==>
       d.ids[k] == rs[k].id && d.oel[k] == OelVertex(k, rs[k].neighbors) &&
       rs[k].id in d.idMap && d.idMap[rs[k].id] == k) &&
    (forall x :: x in d.idMap <==> exists h :: 0 <= h < |rs| && rs[h].id == x)
  }

  /** Records with distinct ids put one after another into an emptied map are held completely. */
  lemma PutComplete(rs: seq<Record>)
    requires UniqueIds(rs)
    ensures HoldsComplete(rs, Decoded(PutIds(Zeros(|rs|), 0, rs), PutMap(map[], 0, rs), Indexed(0, rs), None))
  {
    var count := |rs|;
    var ids := PutIds(Zeros(count), 0, rs);
    var m := PutMap(map[], 0, rs);
    var oel := Indexed(0, rs);
    forall k | 0 <= k < count
      ensures ids[k] == rs[k].id && oel[k] == OelVertex(k, rs[k].neighbors)
      ensures rs[k].id in m && m[rs[k].id] == k
    {
      PutIdsAt(Zeros(count), 0, rs, k);
      IndexedAt(0, rs, k);
      PutMapLastWins(map[], 0, rs, k);
    }
    forall x
      ensures x in m <==> exists h :: 0 <= h < count && rs[h].id == x
    {
      PutMapKeys(map[], 0, rs, x);
    }
  }

  /** Decoding a complete file of records with distinct ids into an emptied map holds them all. */
  lemma DecodeComplete(rs: seq<Record>)
    requires AllEncodable(rs) && UniqueIds(rs)
    ensures HoldsComplete(rs, Decode(EncodeRecords(rs), |rs|, map[], []))
  {
    DecodeEncodedRecords(rs, |rs|, map[], []);
    assert [] + Indexed(0, rs) == Indexed(0, rs);
    PutComplete(rs);
  }

  /**
   * Translating a complete decode: the k-th vertex keeps id k, translation fails exactly
   * when some neighbour is not the id of a record, and otherwise each translated neighbour
   * indexes the table at the neighbour's original id.
   */
  lemma TranslateComplete(rs: seq<Record>, d: Decoded)
    requires HoldsComplete(rs, d)
    ensures var t := TranslateAll(d.oel, d.idMap);
            |t.0| == |rs| &&
            (forall k :: 0 <= k < |rs| ==> t.0[k].id == k && |t.0[k].neighbors| == |rs[k].neighbors|) &&
            (t.1 <==>
               forall k, j :: 0 <= k < |rs| && 0 <= j < |rs[k].neighbors| ==>
                 exists h :: 0 <= h < |rs| && rs[h].id == rs[k].neighbors[j]) &&
            (t.1 ==>
               forall k, j :: 0 <= k < |rs| && 0 <= j < |rs[k].neighbors| ==>
                 0 <= t.0[k].neighbors[j] < |rs| && d.ids[t.0[k].neighbors[j]] == rs[k].neighbors[j])
  {
    var count := |rs|;
    TranslateAllMeaning(d.oel, d.idMap);
    var t := TranslateAll(d.oel, d.idMap);
    if t.1 {
      forall k, j | 0 <= k < count && 0 <= j < |rs[k].neighbors|
        ensures 0 <= t.0[k].neighbors[j] < count && d.ids[t.0[k].neighbors[j]] == rs[k].neighbors[j]
      {
        var x := rs[k].neighbors[j];
        assert d.oel[k].neighbors[j] == x;
        var h :| 0 <= h < count && rs[h].id == x;
        assert d.idMap[x] == h;
      }
    }
  }

  /**
   * Loading a complete file of records with distinct ids into an emptied map: the k-th
   * vertex of the queue has id k, the load fails exactly when some neighbour is not the id
   * of a record, and otherwise each translated neighbour indexes the table at the
   * neighbour's original id.
   */
  lemma LoadRoundTrip(rs: seq<Record>)
    requires AllEncodable(rs) && UniqueIds(rs)
    ensures var l := Load(Some(EncodeRecords(rs)), |rs|, map[], []);
            l.table.Some? && |l.table.value| == |rs| && |l.oel| == |rs| &&
            (forall k :: 0 <= k < |rs| ==>
               l.table.value[k] == rs[k].id && l.oel[k].id == k &&
               |l.oel[k].neighbors| == |rs[k].neighbors|) &&
            (l.failure == None <==>
               forall k, j :: 0 <= k < |rs| && 0 <= j < |rs[k].neighbors| ==>
                 exists h :: 0 <= h < |rs| && rs[h].id == rs[k].neighbors[j]) &&
            (l.failure == None ==>
               forall k, j :: 0 <= k < |rs| && 0 <= j < |rs[k].neighbors| ==>
                 0 <= l.oel[k].neighbors[j] < |rs| &&
                 l.table.value[l.oel[k].neighbors[j]] == rs[k].neighbors[j])
  {
    var d := Decode(EncodeRecords(rs), |rs|, map[], []);
    DecodeComplete(rs);
    TranslateComplete(rs, d);
    var t := TranslateAll(d.oel, d.idMap);
    assert Load(Some(EncodeRecords(rs)), |rs|, map[], []) == Loaded(Some(d.ids), d.idMap, t.0, TranslationFailure(t.1));
  }

  /** The vertices a decode appends have ids `i` to `count - 1`, in order. */
  lemma {:induction false} DecodeIdsInRange(ps: seq<Parse>, i: nat, count: nat,
                                            ids: seq<int>, m: map<int, int>, oel: seq<OelVertex>)
    requires i + |ps| <= count == |ids|
    ensures var d := DecodeFrom(ps, i, count, ids, m, oel);
            |oel| <= |d.oel| && d.oel[..|oel|] == oel &&
            forall k :: |oel| <= k < |d.oel| ==> d.oel[k].id == i + (k - |oel|) < count
    decreases ps
  {
    if ps != [] && ps[0].Whole? {
      var p := ps[0];
      var oel' := oel + [OelVertex(i, p.neighbors)];
      DecodeIdsInRange(ps[1..], i + 1, count, ids[i := p.id], m[p.id := i], oel');
      var d := DecodeFrom(ps[1..], i + 1, count, ids[i := p.id], m[p.id := i], oel');
      assert d.oel[..|oel|] == d.oel[..|oel'|][..|oel|];
    }
  }

  /**
   * A first load into an empty queue leaves only vertices whose ids index the table, and
   * an empty queue when the table was not replaced.
   */
  lemma LoadIdsInTable(file: Option<seq<byte>>, count: int, m0: map<int, int>)
    ensures var l := Load(file, count, m0, []);
            (l.table.None? ==> l.oel == []) &&
            (l.table.Some? ==> forall k :: 0 <= k < |l.oel| ==> 0 <= l.oel[k].id < |l.table.value|)
  {
    if file.Some? && count >= 0 {
      var d := Decode(file.value, count, m0, []);
      DecodeIdsInRange(ParseRecords(file.value, 0, count), 0, count, Zeros(count), m0, []);
      TranslateAllMeaning(d.oel, d.idMap);
    }
  }

  /** The first vertex of a queue and the queue after `poll`. */
  function PollHead(q: seq<OelVertex>): Option<OelVertex> {
    if q == [] then None else Some(q[0])
  }

  function PollRest(q: seq<OelVertex>): seq<OelVertex> {
    if q == [] then [] else q[1..]
  }

  // ---------------------------------------------------------------------------
  // The reader

  /** The static tables `CID_TO_VERTEX_ID` and `VERTEX_ID_TO_CID`, shared by every reader. */
  class IdTables {
    var cidToVertexId: array?<int>
    var vertexIdToCid: map<int, int>

    constructor ()
      ensures cidToVertexId == null && vertexIdToCid == map[]
    {
      cidToVertexId := null;
      vertexIdToCid := map[];
    }
  }

  /** The neighbour loop of a record: `n` longs from `pos`. */
  method ReadNeighbors(file: seq<byte>, pos: nat, n: nat) returns (ns: seq<int>)
    requires pos + 8 * n <= |file|
    ensures ns == ReadLongs(file, pos, n)
  {
    ns := [];
    var j := 0;
    while j < n
      invariant 0 <= j <= n
      invariant ns == ReadLongs(file, pos, j)
    {
      ns := ns + [ReadLong(file, pos + 8 * j)];
      j := j + 1;
    }
  }

  /**
   * `read` is the record reader of `file`. The loops below take the reader as a ghost
   * parameter so that the parse of a record is looked at only where its bytes are read.
   */
  ghost predicate ReadsRecords(read: nat -> Parse, file: seq<byte>) {
    forall q: nat {:trigger ParseRecord(file, q)} :: read(q) == ParseRecord(file, q)
  }

  /**
   * One pass of the record loop at byte `pos` for record `i`: the id goes into the table
   * and the map as soon as it is read; a record cut short by the end of the file stops the
   * loop, a negative count throws, and a whole record joins the queue.
   */
  method DecodeRecordAt(file: seq<byte>, ghost read: nat -> Parse, ids: array<int>, pos: nat, i: nat,
                        m0: map<int, int>, oel0: seq<OelVertex>)
    returns (next: nat, m: map<int, int>, oel: seq<OelVertex>, failure: Option<Exception>, stop: bool)
    requires ReadsRecords(read, file) && i < ids.Length
    modifies ids
    ensures var before := DecodeFrom(Attempts(read, pos, ids.Length - i), i, ids.Length, old(ids[..]), m0, oel0);
            if stop then before == Decoded(ids[..], m, oel, failure)
            else failure == None &&
                 before == DecodeFrom(Attempts(read, next, ids.Length - (i + 1)), i + 1, ids.Length, ids[..], m, oel)
  {
    next, m, oel, failure, stop := pos, m0, oel0, None, true;
    if pos + 8 > |file| {
      assert ParseRecord(file, pos) == EndOfFile;
      return;
    }
    var id := ReadLong(file, pos);
    ids[i] := id;
    m := m[id := i];
    if pos + 12 > |file| {
      assert ParseRecord(file, pos) == IdOnly(id);
      return;
    }
    var n := ReadInt(file, pos + 8);
    if n < 0 {
      assert ParseRecord(file, pos) == NegativeCount(id);
      failure := Some(NegativeArraySize);
      return;
    }
    if pos + 12 + 8 * n > |file| {
      assert ParseRecord(file, pos) == ShortNeighbors(id);
      return;
    }
    var ns := ReadNeighbors(file, pos + 12, n);
    oel := oel + [OelVertex(i, ns)];
    next := pos + 12 + 8 * n;
    assert ParseRecord(file, pos) == Whole(id, ns, next);
    stop := false;
  }

  /**
   * The record loop of `loadFromBoelFile`, writing ids into the new table `ids` and
   * entries into the map as it goes; it stops at the end of the file or on a negative count.
   * With `read` the reader of `file`, the outcome is `Decode(file, ids.Length, m0, oel0)`.
   */
  method DecodeRecordsInto(file: seq<byte>, ghost read: nat -> Parse, ids: array<int>,
                           m0: map<int, int>, oel0: seq<OelVertex>)
    returns (m: map<int, int>, oel: seq<OelVertex>, failure: Option<Exception>)
    requires ReadsRecords(read, file) && ids[..] == Zeros(ids.Length)
    modifies ids
    ensures Decoded(ids[..], m, oel, failure) ==
            DecodeFrom(Attempts(read, 0, ids.Length), 0, ids.Length, Zeros(ids.Length), m0, oel0)
  {
    var count := ids.Length;
    ghost var spec := DecodeFrom(Attempts(read, 0, count), 0, count, Zeros(count), m0, oel0);
    var pos: nat, i, stop := 0, 0, false;
    m, oel, failure := m0, oel0, None;
    while i < count && !stop
      invariant 0 <= i <= count
      invariant !stop ==> failure == None && spec == DecodeFrom(Attempts(read, pos, count - i), i, count, ids[..], m, oel)
      invariant stop ==> spec == Decoded(ids[..], m, oel, failure)
      decreases count - i, if stop then 0 else 1
    {
      pos, m, oel, failure, stop := DecodeRecordAt(file, read, ids, pos, i, m, oel);
      if !stop {
        i := i + 1;
      }
    }
    if !stop {
      assert Attempts(read, pos, 0) == [];
    }
  }

  /** One step of the neighbour translation from index `j`. */
  lemma TranslateNeighborsStep(ns: seq<int>, m: map<int, int>, j: nat)
    requires j < |ns|
    ensures ns[j] !in m ==> TranslateNeighbors(ns[j..], m) == (ns[j..], false)
    ensures ns[j] in m ==>
              TranslateNeighbors(ns[j..], m) ==
              ([m[ns[j]]] + TranslateNeighbors(ns[j + 1..], m).0, TranslateNeighbors(ns[j + 1..], m).1)
  {
    assert ns[j..][0] == ns[j];
    assert ns[j..][1..] == ns[j + 1..];
  }

  /** The inner translation loop: the neighbour ids of one vertex, replaced one by one. */
  method TranslateNeighborsInPlace(ns: seq<int>, m: map<int, int>) returns (r: seq<int>, ok: bool)
    ensures (r, ok) == TranslateNeighbors(ns, m)
  {
    var done := [];
    var j := 0;
    assert ns[0..] == ns;
    while j < |ns|
      invariant 0 <= j <= |ns| && |done| == j
      invariant TranslateNeighbors(ns, m).1 == TranslateNeighbors(ns[j..], m).1
      invariant TranslateNeighbors(ns, m).0 == done + TranslateNeighbors(ns[j..], m).0
    {
      TranslateNeighborsStep(ns, m, j);
      if ns[j] !in m {
        return done + ns[j..], false;
      }
      assert done + TranslateNeighbors(ns[j..], m).0 == (done + [m[ns[j]]]) + TranslateNeighbors(ns[j + 1..], m).0;
      done := done + [m[ns[j]]];
      j := j + 1;
    }
    assert ns[j..] == [];
    assert TranslateNeighbors(ns[j..], m) == ([], true);
    assert done + [] == done;
    r, ok := done, true;
  }

  /** One step of the queue translation from index `k`. */
  lemma TranslateAllStep(oel: seq<OelVertex>, m: map<int, int>, k: nat)
    requires k < |oel|
    ensures var t := TranslateNeighbors(oel[k].neighbors, m);
            var v := OelVertex(oel[k].id, t.0);
            TranslateAll(oel[k..], m) ==
              if !t.1 then ([v] + oel[k + 1..], false)
              else ([v] + TranslateAll(oel[k + 1..], m).0, TranslateAll(oel[k + 1..], m).1)
  {
    assert oel[k..][0] == oel[k];
    assert oel[k..][1..] == oel[k + 1..];
  }

  /** The outer translation loop over the queue, stopping where a lookup throws. */
  method TranslateQueue(oel: seq<OelVertex>, m: map<int, int>) returns (r: seq<OelVertex>, ok: bool)
    ensures (r, ok) == TranslateAll(oel, m)
  {
    var done := [];
    var k := 0;
    assert oel[0..] == oel;
    while k < |oel|
      invariant 0 <= k <= |oel| && |done| == k
      invariant TranslateAll(oel, m).1 == TranslateAll(oel[k..], m).1
      invariant TranslateAll(oel, m).0 == done + TranslateAll(oel[k..], m).0
    {
      TranslateAllStep(oel, m, k);
      var t, tok := TranslateNeighborsInPlace(oel[k].neighbors, m);
      var v := OelVertex(oel[k].id, t);
      if !tok {
        assert done + TranslateAll(oel[k..], m).0 == done + [v] + oel[k + 1..];
        return done + [v] + oel[k + 1..], false;
      }
      assert done + TranslateAll(oel[k..], m).0 == (done + [v]) + TranslateAll(oel[k + 1..], m).0;
      done := done + [v];
      k := k + 1;
    }
    assert oel[k..] == [];
    assert TranslateAll(oel[k..], m) == ([], true);
    assert done + [] == done;
    r, ok := done, true;
  }

  /** A reader of one partition's binary ordered edge list. */
  class GraphalyticsOrderedEdgeList {
    const tables: IdTables
    /** The file's bytes; `None` when it cannot be opened. */
    const boelFile: Option<seq<byte>>
    const numberOfVertices: int
    var oel: seq<OelVertex>
    var loaded: bool

    /** Nothing is queued before the load, and every queued vertex indexes the id table. */
    ghost predicate Valid()
      reads this, tables
    {
      (!loaded ==> oel == []) &&
      forall k :: 0 <= k < |oel| ==>
        tables.cidToVertexId != null && 0 <= oel[k].id < tables.cidToVertexId.Length
    }

    constructor (tables: IdTables, boelFile: Option<seq<byte>>, numberOfVertices: int)
      ensures this.tables == tables && this.boelFile == boelFile && this.numberOfVertices == numberOfVertices
      ensures oel == [] && !loaded && Valid()
    {
      this.tables := tables;
      this.boelFile := boelFile;
      this.numberOfVertices := numberOfVertices;
      oel := [];
      loaded := false;
    }

    /**
     * `loadFromBoelFile`: a file that cannot be opened decodes nothing; otherwise a new
     * table of `numberOfVertices` entries replaces the static one and the records are
     * decoded into it, the map and the queue; then the queued neighbours are translated.
     */
    method LoadFromBoelFile() returns (failure: Option<Exception>)
      modifies this, tables
      ensures var l := Load(boelFile, numberOfVertices, old(tables.vertexIdToCid), old(oel));
              oel == l.oel && tables.vertexIdToCid == l.idMap && failure == l.failure &&
              loaded == old(loaded) &&
              if l.table.Some? then
                tables.cidToVertexId != null && fresh(tables.cidToVertexId) &&
                tables.cidToVertexId[..] == l.table.value
              else tables.cidToVertexId == old(tables.cidToVertexId)
    {
      if boelFile.None? {
        var t, ok := TranslateQueue(oel, tables.vertexIdToCid);
        oel := t;
        failure := TranslationFailure(ok);
        return;
      }
      if numberOfVertices < 0 {
        failure := Some(NegativeArraySize);
        return;
      }
      var ids := new int[numberOfVertices](_ => 0);
      assert ids[..] == Zeros(numberOfVertices);
      tables.cidToVertexId := ids;
      var m, q, f := DecodeRecordsInto(boelFile.value, Reader(boelFile.value), ids, tables.vertexIdToCid, oel);
      tables.vertexIdToCid := m;
      oel := q;
      if f.Some? {
        failure := f;
        return;
      }
      var t, ok := TranslateQueue(oel, m);
      oel := t;
      failure := TranslationFailure(ok);
    }

    /**
     * `readVertex`: the first call marks the reader loaded and loads the file, letting
     * its exception through; every call then polls the queue, `None` once it is empty.
     */
    method ReadVertex() returns (r: Result<Option<OelVertex>, Exception>)
      requires Valid()
      modifies this, tables
      ensures Valid() && loaded
      ensures old(loaded) ==>
                tables.cidToVertexId == old(tables.cidToVertexId) &&
                tables.vertexIdToCid == old(tables.vertexIdToCid) &&
                r == Ok(PollHead(old(oel))) && oel == PollRest(old(oel))
      ensures !old(loaded) ==>
                var l := Load(boelFile, numberOfVertices, old(tables.vertexIdToCid), []);
                tables.vertexIdToCid == l.idMap &&
                (if l.table.Some? then tables.cidToVertexId != null && tables.cidToVertexId[..] == l.table.value
                 else tables.cidToVertexId == old(tables.cidToVertexId)) &&
                if l.failure.Some? then r == Err(l.failure.value) && oel == l.oel
                else r == Ok(PollHead(l.oel)) && oel == PollRest(l.oel)
    {
      if !loaded {
        loaded := true;
        LoadIdsInTable(boelFile, numberOfVertices, tables.vertexIdToCid);
        var failure := LoadFromBoelFile();
        if failure.Some? {
          return Err(failure.value);
        }
      }
      r := Ok(PollHead(oel));
      oel := PollRest(oel);
    }
  }
}
