/**
 * `graph.data.List`: an array-backed list of boxed numbers with a fixed capacity.
 * Slots hold a Java reference, `None` standing for null.
 */
module DataList {
  import opened Wrappers
  import opened Numeric
  import opened Serial

  /** The element class: only `Integer` and `Long` elements are serialised. */
  datatype ElemKind = IntegerKind | LongKind | OtherKind

  datatype Exception = NegativeArraySize | IndexOutOfBounds | NullPointer

  /** The list's state: element class, backing array contents and the fill counter. */
  datatype ListValue = ListValue(kind: ElemKind, data: seq<Option<int>>, current: nat)

  /** Bytes per element in `calcSize`: 4 for Integer, 8 for Long, 0 otherwise. */
  function ElemBytes(kind: ElemKind): nat {
    match kind
    case IntegerKind => 4
    case LongKind => 8
    case OtherKind => 0
  }

  /**
   * The shape `addElement` keeps: the first `current` slots are filled and the rest are
   * null, with values in the range of the element class.
   */
  ghost predicate Packed(v: ListValue) {
    && v.current <= |v.data|
    && (forall i :: 0 <= i < v.current ==> v.data[i].Some?)
    && (forall i :: v.current <= i < |v.data| ==> v.data[i].None?)
    && (forall i :: 0 <= i < v.current && v.kind == IntegerKind ==> IsInt(v.data[i].value))
    && (forall i :: 0 <= i < v.current && v.kind == LongKind ==> IsLong(v.data[i].value))
  }

  /** The token export writes for slot `i`: unboxing a null element throws. */
  function ElemToken(kind: ElemKind, e: Option<int>): Result<seq<Token>, Exception> {
    match kind
    case IntegerKind => if e.None? then Err(NullPointer) else Ok([IntTok(e.value)])
    case LongKind => if e.None? then Err(NullPointer) else Ok([LongTok(e.value)])
    case OtherKind => Ok([])
  }

  /** The tokens for slots `i` to `n - 1`, in index order; the first failing slot decides the error. */
  function EncodeFrom(kind: ElemKind, data: seq<Option<int>>, i: nat, n: nat): Result<seq<Token>, Exception>
    decreases n - i
  {
    if i >= n then Ok([])
    else if i >= |data| then Err(IndexOutOfBounds)
    else match ElemToken(kind, data[i])
      case Err(e) => Err(e)
      case Ok(t) =>
        match EncodeFrom(kind, data, i + 1, n)
        case Err(e) => Err(e)
        case Ok(ts) => Ok(t + ts)
  }

  /** `exportObject`: capacity, count, then the first `count` elements. */
  function Encode(v: ListValue): Result<seq<Token>, Exception> {
    match EncodeFrom(v.kind, v.data, 0, v.current)
    case Err(e) => Err(e)
    case Ok(ts) => Ok([IntTok(|v.data|), IntTok(v.current)] + ts)
  }

  /** The list and stream after an import, and the exception that ended it, if any. */
  datatype ImportState = ImportState(data: seq<Option<int>>, current: nat, rest: seq<Token>, failure: Option<Exception>)

  /** `addElement`: a store at the counter, which then advances; a full array throws. */
  function Add(data: seq<Option<int>>, current: nat, e: Option<int>): Result<(seq<Option<int>>, nat), Exception> {
    if current < |data| then Ok((data[current := e], current + 1)) else Err(IndexOutOfBounds)
  }

  /** The import loop: `remaining` more elements read and added; an Other list reads nothing. */
  function ImportElems(kind: ElemKind, data: seq<Option<int>>, current: nat, ts: seq<Token>, remaining: nat): ImportState
    decreases remaining
  {
    if remaining == 0 then ImportState(data, current, ts, None)
    else if kind == OtherKind then ImportElems(kind, data, current, ts, remaining - 1)
    else
      var (x, ts1) := if kind == IntegerKind then ReadInt(ts, 0) else ReadLong(ts, 0);
      match Add(data, current, Some(x))
      case Err(e) => ImportState(data, current, ts1, Some(e))
      case Ok((data', current')) => ImportElems(kind, data', current', ts1, remaining - 1)
  }

  /**
   * `importObject`: reads capacity and count, allocates a new array of that capacity and
   * adds `count` elements; the counter is not reset first.
   */
  function Decode(ts: seq<Token>, v: ListValue): ImportState {
    var (size, ts1) := ReadInt(ts, 0);
    var (end, ts2) := ReadInt(ts1, 0);
    if size < 0 then ImportState(v.data, v.current, ts2, Some(NegativeArraySize))
    else ImportElems(v.kind, seq(size, _ => None), v.current, ts2, if end < 0 then 0 else end)
  }

  /** `sizeofObject`: two ints plus element bytes times the capacity, in `int` arithmetic. */
  function SizeOf(v: ListValue): int {
    WrapInt(8 + WrapInt(ElemBytes(v.kind) * |v.data|))
  }

  /** Export of a packed list cannot fail: every slot below the counter holds an element. */
  lemma {:induction false} EncodeFromPacked(v: ListValue, i: nat)
    requires Packed(v) && i <= v.current
    ensures EncodeFrom(v.kind, v.data, i, v.current).Ok?
    ensures |EncodeFrom(v.kind, v.data, i, v.current).value| == if v.kind == OtherKind then 0 else v.current - i
    decreases v.current - i
  {
    if i < v.current {
      EncodeFromPacked(v, i + 1);
    }
  }

  /**
   * Importing the tokens of slots `i..n` into a list that already holds slots `0..i` restores
   * the remaining slots in order, leaving the stream behind them untouched.
   */
  lemma {:induction false} ImportEncodedFrom(v: ListValue, d: seq<Option<int>>, i: nat, rest: seq<Token>)
    requires Packed(v) && v.kind != OtherKind && i <= v.current
    requires |d| == |v.data|
    requires forall k :: 0 <= k < i ==> d[k] == v.data[k]
    requires forall k :: i <= k < |d| ==> d[k].None?
    ensures EncodeFrom(v.kind, v.data, i, v.current).Ok?
    ensures ImportElems(v.kind, d, i, EncodeFrom(v.kind, v.data, i, v.current).value + rest, v.current - i)
            == ImportState(v.data, v.current, rest, None)
    decreases v.current - i
  {
    EncodeFromPacked(v, i);
    if i == v.current {
      assert d == v.data;
    } else {
      EncodeFromPacked(v, i + 1);
      var tail := EncodeFrom(v.kind, v.data, i + 1, v.current).value;
      var t := ElemToken(v.kind, v.data[i]).value;
      assert EncodeFrom(v.kind, v.data, i, v.current).value + rest == t + (tail + rest);
      ImportEncodedFrom(v, d[i := v.data[i]], i + 1, rest);
    }
  }

  /** Import after export into a new (empty) list of the same element class restores the list. */
  lemma RoundTrip(v: ListValue, empty: ListValue, rest: seq<Token>)
    requires Packed(v) && v.kind != OtherKind && IsInt(|v.data|)
    requires empty.kind == v.kind && empty.current == 0
    ensures Encode(v).Ok?
    ensures Decode(Encode(v).value + rest, empty) == ImportState(v.data, v.current, rest, None)
  {
    EncodeFromPacked(v, 0);
    var body := EncodeFrom(v.kind, v.data, 0, v.current).value;
    assert Encode(v).value + rest == [IntTok(|v.data|), IntTok(v.current)] + (body + rest);
    ImportEncodedFrom(v, seq(|v.data|, _ => None), 0, rest);
  }

  /**
   * The slots of a list of `v`'s capacity after `v`'s elements were added from counter `c`:
   * slot `c + k` holds element `k`, every other slot is null.
   */
  ghost function Placed(v: ListValue, c: nat): (r: seq<Option<int>>)
    requires v.current <= |v.data|
    ensures |r| == |v.data|
  {
    seq(|v.data|, k requires 0 <= k < |v.data| => if c <= k < c + v.current then v.data[k - c] else None)
  }

  /**
   * The import loop from counter `c + i`, over the tokens of slots `i..current` of `v`, into
   * an array that holds slots `0..i` of `v` shifted by `c`: it ends with `v`'s elements
   * shifted by `c`, and fails exactly when they do not all fit.
   */
  lemma {:induction false} ImportShiftedFrom(v: ListValue, c: nat, d: seq<Option<int>>, i: nat, rest: seq<Token>)
    requires Packed(v) && v.kind != OtherKind && i <= v.current
    requires |d| == |v.data| && (i == 0 || c + i <= |d|)
    requires forall k :: 0 <= k < |d| ==> d[k] == if c <= k < c + i then v.data[k - c] else None
    ensures EncodeFrom(v.kind, v.data, i, v.current).Ok?
    ensures var r := ImportElems(v.kind, d, c + i, EncodeFrom(v.kind, v.data, i, v.current).value + rest, v.current - i);
            r.data == Placed(v, c) &&
            if i == v.current || c + v.current <= |d| then
              r.current == c + v.current && r.rest == rest && r.failure == None
            else
              r.failure == Some(IndexOutOfBounds) && r.current == (if c < |d| then |d| else c)
    decreases v.current - i
  {
    EncodeFromPacked(v, i);
    if i == v.current {
      assert d == Placed(v, c);
    } else {
      EncodeFromPacked(v, i + 1);
      var tail := EncodeFrom(v.kind, v.data, i + 1, v.current).value;
      var t := ElemToken(v.kind, v.data[i]).value;
      assert EncodeFrom(v.kind, v.data, i, v.current).value + rest == t + (tail + rest);
      if c + i < |d| {
        ImportShiftedFrom(v, c, d[c + i := v.data[i]], i + 1, rest);
      } else {
        assert d == Placed(v, c);
      }
    }
  }

  /**
   * Import does not reset the counter: importing the export of any packed list `v` into a
   * list whose counter is `c` puts `v`'s elements at slots `c..` of the new array. It
   * succeeds when they fit; otherwise it stops with `IndexOutOfBounds` at the end of the
   * array, with the elements that fitted in place.
   */
  lemma ImportWithoutReset(v: ListValue, target: ListValue, rest: seq<Token>)
    requires Packed(v) && v.kind != OtherKind && IsInt(|v.data|)
    requires target.kind == v.kind
    ensures Encode(v).Ok?
    ensures var r := Decode(Encode(v).value + rest, target);
            var c := target.current;
            r.data == Placed(v, c) &&
            if v.current == 0 || c + v.current <= |v.data| then
              r.current == c + v.current && r.rest == rest && r.failure == None
            else
              r.failure == Some(IndexOutOfBounds) && r.current == (if c < |v.data| then |v.data| else c)
  {
    EncodeFromPacked(v, 0);
    var body := EncodeFrom(v.kind, v.data, 0, v.current).value;
    assert Encode(v).value + rest == [IntTok(|v.data|), IntTok(v.current)] + (body + rest);
    ImportShiftedFrom(v, target.current, seq(|v.data|, _ => None), 0, rest);
  }

  /** The rules play no part here: ints and longs have fixed sizes. */
  const FIXED_RULES: SizeRules := SizeRules(_ => 0, _ => 0, 0)

  /** Export of a packed list writes two ints and one element token per filled slot. */
  lemma ExportStreamSize(v: ListValue, rules: SizeRules)
    requires Packed(v) && v.kind != OtherKind
    ensures Encode(v).Ok?
    ensures StreamSize(rules, Encode(v).value) == 8 + ElemBytes(v.kind) * v.current
  {
    EncodeFromPacked(v, 0);
    ElemStreamSize(v, rules, 0);
    var body := EncodeFrom(v.kind, v.data, 0, v.current).value;
    StreamSizeCons(rules, IntTok(|v.data|), [IntTok(v.current)] + body);
    StreamSizeCons(rules, IntTok(v.current), body);
    assert Encode(v).value == [IntTok(|v.data|)] + ([IntTok(v.current)] + body);
  }

  /**
   * The declared size counts the capacity, export writes only the filled slots: for a
   * serialised element class they agree exactly when the list is full.
   */
  lemma SizeVersusExport(v: ListValue)
    requires Packed(v) && v.kind != OtherKind
    requires 8 + ElemBytes(v.kind) * |v.data| <= INT_MAX
    ensures Encode(v).Ok?
    ensures SizeOf(v) == 8 + ElemBytes(v.kind) * |v.data|
    ensures SizeOf(v) == StreamSize(FIXED_RULES, Encode(v).value) <==> v.current == |v.data|
  {
    ExportStreamSize(v, FIXED_RULES);
    var e := ElemBytes(v.kind);
    assert e * |v.data| == e * v.current + e * (|v.data| - v.current);
    assert v.current < |v.data| ==> e * (|v.data| - v.current) >= e;
  }

  /** Each exported element token counts its element bytes. */
  lemma {:induction false} ElemStreamSize(v: ListValue, rules: SizeRules, i: nat)
    requires Packed(v) && v.kind != OtherKind && i <= v.current
    ensures EncodeFrom(v.kind, v.data, i, v.current).Ok?
    ensures StreamSize(rules, EncodeFrom(v.kind, v.data, i, v.current).value) == ElemBytes(v.kind) * (v.current - i)
    decreases v.current - i
  {
    EncodeFromPacked(v, i);
    if i < v.current {
      ElemStreamSize(v, rules, i + 1);
      var t := ElemToken(v.kind, v.data[i]).value;
      StreamSizeCons(rules, t[0], EncodeFrom(v.kind, v.data, i + 1, v.current).value);
      assert t == [t[0]];
    } else {
      assert EncodeFrom(v.kind, v.data, i, v.current).value == [];
    }
  }

  class List {
    var kind: ElemKind
    var data: array<Option<int>>
    var current: nat

    ghost function Value(): ListValue
      reads this, data
    {
      ListValue(kind, data[..], current)
    }

    /** A list of the given capacity: all slots null, counter 0. */
    constructor (kind: ElemKind, capacity: nat)
      ensures Value() == ListValue(kind, seq(capacity, _ => None), 0)
      ensures Packed(Value()) && fresh(data)
    {
      this.kind := kind;
      data := new Option<int>[capacity](_ => None);
      current := 0;
    }

    /** `new List(clazz, capacity)`: a negative capacity throws. */
    static method Create(kind: ElemKind, capacity: int) returns (r: Result<List, Exception>)
      ensures capacity < 0 <==> r.Err?
      ensures r.Ok? ==> fresh(r.value) && fresh(r.value.data)
                        && r.value.Value() == ListValue(kind, seq(capacity, _ => None), 0)
    {
      if capacity < 0 {
        return Err(NegativeArraySize);
      }
      var l := new List(kind, capacity);
      return Ok(l);
    }

    /** `addElement`: stores at the counter and advances it; a full list throws and is unchanged. */
    method AddElement(e: Option<int>) returns (r: Option<Exception>)
      modifies this, data
      ensures data == old(data) && kind == old(kind)
      ensures match Add(old(data[..]), old(current), e)
        case Ok((d, c)) => r.None? && data[..] == d && current == c
        case Err(x) => r == Some(x) && data[..] == old(data[..]) && current == old(current)
    {
      if current >= data.Length {
        return Some(IndexOutOfBounds);
      }
      data[current] := e;
      current := current + 1;
      r := None;
    }

    /** `getData`: the backing array itself, unused slots included. */
    method GetData() returns (a: array<Option<int>>)
      ensures a == data
    {
      a := data;
    }

    method SizeofObject() returns (s: int)
      ensures s == SizeOf(Value())
    {
      var size := WrapInt(ElemBytes(kind) * data.Length);
      s := WrapInt(2 * 4 + size);
    }

    method ExportObject(out: seq<Token>) returns (r: Result<seq<Token>, Exception>)
      ensures Encode(Value()).Ok? ==> r == Ok(out + Encode(Value()).value)
      ensures Encode(Value()).Err? ==> r == Err(Encode(Value()).error)
    {
      var acc := out + [IntTok(data.Length), IntTok(current)];
      var i := 0;
      while i < current
        invariant 0 <= i <= current
        invariant EncodeFrom(kind, data[..], 0, current).Ok? ==>
          EncodeFrom(kind, data[..], i, current).Ok?
          && acc + EncodeFrom(kind, data[..], i, current).value
             == out + [IntTok(data.Length), IntTok(current)] + EncodeFrom(kind, data[..], 0, current).value
        invariant EncodeFrom(kind, data[..], 0, current).Err? ==>
          EncodeFrom(kind, data[..], i, current) == EncodeFrom(kind, data[..], 0, current)
      {
        if i >= data.Length {
          assert EncodeFrom(kind, data[..], i, current) == Err(IndexOutOfBounds);
          return Err(IndexOutOfBounds);
        }
        var e := data[i];
        if kind == IntegerKind {
          if e.None? {
            assert EncodeFrom(kind, data[..], i, current) == Err(NullPointer);
            return Err(NullPointer);
          }
          acc := acc + [IntTok(e.value)];
        } else if kind == LongKind {
          if e.None? {
            assert EncodeFrom(kind, data[..], i, current) == Err(NullPointer);
            return Err(NullPointer);
          }
          acc := acc + [LongTok(e.value)];
        }
        i := i + 1;
      }
      assert EncodeFrom(kind, data[..], current, current) == Ok([]);
      if EncodeFrom(kind, data[..], 0, current).Ok? {
        var body := EncodeFrom(kind, data[..], 0, current).value;
        assert acc == out + [IntTok(data.Length), IntTok(current)] + body;
        assert Encode(Value()) == Ok([IntTok(data.Length), IntTok(current)] + body);
        assert acc == out + Encode(Value()).value;
      }
      r := Ok(acc);
      assert Encode(Value()).Ok? ==> r == Ok(out + Encode(Value()).value);
    }

    /** `importObject`, as written: a fresh array, then `addElement` from the unchanged counter. */
    method ImportObject(input: seq<Token>) returns (rest: seq<Token>, failure: Option<Exception>)
      modifies this
      ensures kind == old(kind)
      ensures var s := Decode(input, old(Value()));
        data[..] == s.data && current == s.current && rest == s.rest && failure == s.failure
    {
      var size, ts1 := ReadInt(input, 0).0, ReadInt(input, 0).1;
      var end, ts2 := ReadInt(ts1, 0).0, ReadInt(ts1, 0).1;
      if size < 0 {
        return ts2, Some(NegativeArraySize);
      }
      data := new Option<int>[size](_ => None);
      assert data[..] == seq(size, _ => None);
      var ts := ts2;
      var i := 0;
      ghost var target := Decode(input, old(Value()));
      while i < end
        invariant i <= end || end < 0
        invariant 0 <= i
        invariant fresh(data) && kind == old(kind)
        invariant target == ImportElems(kind, data[..], current, ts, if end < 0 then 0 else end - i)
      {
        if kind == IntegerKind || kind == LongKind {
          var x, ts' := 0, ts;
          if kind == IntegerKind {
            x, ts' := ReadInt(ts, 0).0, ReadInt(ts, 0).1;
          } else {
            x, ts' := ReadLong(ts, 0).0, ReadLong(ts, 0).1;
          }
          ts := ts';
          if current >= data.Length {
            return ts, Some(IndexOutOfBounds);
          }
          data[current] := Some(x);
          current := current + 1;
        }
        i := i + 1;
      }
      return ts, None;
    }
  }
}
