/** `graph.data.Schema`: a list of typed fields and the byte offset of each. */
module Schema {
  import opened Numeric

  datatype PrimitiveType = BOOL | BYTE | CHAR | DOUBLE | FLOAT | INT | LONG | SHORT

  /**
   * A field type. Both constructors of the source mark the type primitive; the
   * non-primitive case is kept because the size computation has a branch for it.
   */
  datatype Type = Type(primitive: bool, primitiveType: PrimitiveType, arraySize: int)

  /** The one-argument constructor: a scalar field, array size -1. */
  function Scalar(pt: PrimitiveType): (t: Type)
    ensures t.primitive && t.primitiveType == pt && !IsArray(t)
  {
    Type(true, pt, -1)
  }

  /** The two-argument constructor: an array field of `n` elements. */
  function ArrayOf(pt: PrimitiveType, n: int): (t: Type)
    requires IsInt(n)
    ensures t.primitive && t.primitiveType == pt
    ensures IsArray(t) <==> n >= 0
  {
    Type(true, pt, n)
  }

  /** `isArray`: a non-negative array size marks an array. */
  predicate IsArray(t: Type) {
    t.arraySize >= 0
  }

  /** The `*.BYTES` constant of the Java type behind each primitive. */
  function ElementBytes(pt: PrimitiveType): nat {
    match pt
    case BOOL => 1
    case BYTE => 1
    case CHAR => 2
    case SHORT => 2
    case INT => 4
    case FLOAT => 4
    case LONG => 8
    case DOUBLE => 8
  }

  /**
   * `getSize` in Java `int` arithmetic: the element count is multiplied and the
   * length prefix added, each step wrapping to 32 bits.
   */
  function GetSize(t: Type): (r: int)
    requires IsInt(t.arraySize)
    ensures IsInt(r)
    ensures !t.primitive ==> r == 0
    ensures t.primitive && !IsArray(t) ==> 1 <= r <= 8
  {
    if !t.primitive then 0
    else if t.arraySize >= 0 then WrapInt(4 + WrapInt(ElementBytes(t.primitiveType) * t.arraySize))
    else ElementBytes(t.primitiveType)
  }

  /** The size a field would have with unbounded integers; never negative. */
  function ExactSize(t: Type): nat {
    if !t.primitive then 0
    else if t.arraySize >= 0 then 4 + ElementBytes(t.primitiveType) * t.arraySize
    else ElementBytes(t.primitiveType)
  }

  /** The source's size is the exact size wrapped to an `int`. */
  lemma GetSizeIsWrappedExact(t: Type)
    requires IsInt(t.arraySize)
    ensures GetSize(t) == WrapInt(ExactSize(t))
  {
    if t.primitive && t.arraySize >= 0 {
      WrapIntAdd(ElementBytes(t.primitiveType) * t.arraySize, 4);
    }
  }

  /** Scalar sizes per type: 1 for BOOL/BYTE, 2 for CHAR/SHORT, 4 for INT/FLOAT, 8 for LONG/DOUBLE. */
  lemma ScalarSizes()
    ensures GetSize(Scalar(BOOL)) == 1 && GetSize(Scalar(BYTE)) == 1
    ensures GetSize(Scalar(CHAR)) == 2 && GetSize(Scalar(SHORT)) == 2
    ensures GetSize(Scalar(INT)) == 4 && GetSize(Scalar(FLOAT)) == 4
    ensures GetSize(Scalar(LONG)) == 8 && GetSize(Scalar(DOUBLE)) == 8
  {
  }

  /**
   * An array of `n` elements takes a 4-byte length plus `n` elements of the scalar's size,
   * exactly when that total fits in an `int`, and wrapped otherwise.
   */
  lemma ArraySize(pt: PrimitiveType, n: int)
    requires 0 <= n <= INT_MAX
    ensures GetSize(ArrayOf(pt, n)) == WrapInt(4 + n * GetSize(Scalar(pt)))
    ensures 4 + n * GetSize(Scalar(pt)) <= INT_MAX ==> GetSize(ArrayOf(pt, n)) == 4 + n * GetSize(Scalar(pt))
  {
    var e := ElementBytes(pt);
    assert GetSize(Scalar(pt)) == e;
    assert ExactSize(ArrayOf(pt, n)) == 4 + n * e;
    GetSizeIsWrappedExact(ArrayOf(pt, n));
  }

  /** One field of the schema: its type and the offset at which it starts. */
  datatype SchemaEntry = SchemaEntry(t: Type, offset: int)

  /** The exact total size of the fields of a list of entries. */
  function SumSizes(es: seq<SchemaEntry>): nat {
    if es == [] then 0 else SumSizes(es[..|es| - 1]) + ExactSize(es[|es| - 1].t)
  }

  /** A longer prefix never has a smaller total, since no field has a negative exact size. */
  lemma {:induction false} SumSizesPrefix(es: seq<SchemaEntry>, i: nat, j: nat)
    requires i <= j <= |es|
    ensures SumSizes(es[..i]) <= SumSizes(es[..j])
    decreases j
  {
    if i < j {
      assert es[..j][..j - 1] == es[..j - 1];
      SumSizesPrefix(es, i, j - 1);
    }
  }

  /** Adding two wrapped sizes in `int` arithmetic is wrapping their exact sum. */
  lemma OffsetStep(sum: int, exact: int)
    ensures WrapInt(WrapInt(sum) + WrapInt(exact)) == WrapInt(sum + exact)
  {
    WrapIntAdd(sum, WrapInt(exact));
    WrapIntAdd(exact, sum);
  }

  /** Each entry's offset is the wrapped total size of the entries before it. */
  ghost predicate WellFormed(es: seq<SchemaEntry>) {
    && (forall k :: 0 <= k < |es| ==> IsInt(es[k].t.arraySize))
    && (forall k :: 0 <= k < |es| ==> es[k].offset == WrapInt(SumSizes(es[..k])))
  }

  /** Appending a field at the wrapped running total keeps every offset where the sum puts it. */
  lemma AppendWellFormed(es: seq<SchemaEntry>, t: Type, offset: int)
    requires WellFormed(es) && IsInt(t.arraySize)
    requires offset == WrapInt(SumSizes(es))
    ensures WellFormed(es + [SchemaEntry(t, offset)])
    ensures SumSizes(es + [SchemaEntry(t, offset)]) == SumSizes(es) + ExactSize(t)
  {
    var es' := es + [SchemaEntry(t, offset)];
    assert es'[..|es|] == es;
    forall k | 0 <= k < |es'|
      ensures es'[k].offset == WrapInt(SumSizes(es'[..k]))
    {
      if k < |es| {
        assert es'[..k] == es[..k];
      }
    }
  }

  /**
   * While the schema's total size fits in an `int`, offsets are the exact running sums,
   * so they do not decrease in insertion order.
   */
  lemma OffsetsNonDecreasing(es: seq<SchemaEntry>, i: nat, j: nat)
    requires WellFormed(es)
    requires SumSizes(es) <= INT_MAX
    requires i <= j < |es|
    ensures es[i].offset == SumSizes(es[..i])
    ensures es[i].offset <= es[j].offset
  {
    SumSizesPrefix(es, i, j);
    SumSizesPrefix(es, j, |es|);
    assert es[..|es|] == es;
  }

  class Schema {
    var entries: seq<SchemaEntry>
    var offset: int

    /** The running offset is the wrapped total size, and every entry sits where the sum says. */
    ghost predicate Valid()
      reads this
    {
      && WellFormed(entries)
      && offset == WrapInt(SumSizes(entries))
    }

    constructor ()
      ensures entries == [] && offset == 0
      ensures Valid()
    {
      entries := [];
      offset := 0;
    }

    /** `addEntry`: one entry at the current offset, then the offset advances by the field's size. */
    method AddEntry(t: Type)
      requires Valid()
      requires IsInt(t.arraySize)
      modifies this
      ensures entries == old(entries) + [SchemaEntry(t, old(offset))]
      ensures offset == WrapInt(old(offset) + GetSize(t))
      ensures Valid()
    {
      var size := GetSize(t);
      AppendWellFormed(entries, t, offset);
      GetSizeIsWrappedExact(t);
      OffsetStep(SumSizes(entries), ExactSize(t));
      entries := entries + [SchemaEntry(t, offset)];
      offset := WrapInt(offset + size);
    }
  }
}
