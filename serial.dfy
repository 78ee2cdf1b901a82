/**
 * DXRAM's Exporter and Importer, seen as a stream of typed values.
 *
 * An `exportObject` appends tokens; an `importObject` consumes them in order.
 * Each read is given the field's current value: when the next token is missing or
 * of another kind the read returns that value and consumes nothing, which is the
 * contract of the `readX(default)` calls the source makes.
 */
module Serial {
  import opened Wrappers

  datatype Token =
    | IntTok(i: int)
    | LongTok(l: int)
    | BoolTok(b: bool)
    | StrTok(s: string)
    | LongArrayTok(a: seq<int>)

  /**
   * Byte sizes the serialisation library gives to the values whose encoding it owns
   * (`ObjectSizeUtil.sizeofString`, `sizeofLongArray`, `sizeofBoolean`).
   */
  datatype SizeRules = SizeRules(stringSize: string -> nat, longArraySize: nat -> nat, booleanSize: nat)

  /** Bytes one token occupies: 4 for an int, 8 for a long, the library's rule otherwise. */
  function TokenSize(rules: SizeRules, t: Token): nat {
    match t
    case IntTok(_) => 4
    case LongTok(_) => 8
    case BoolTok(_) => rules.booleanSize
    case StrTok(s) => rules.stringSize(s)
    case LongArrayTok(a) => rules.longArraySize(|a|)
  }

  /** Bytes a whole token stream occupies. */
  function StreamSize(rules: SizeRules, ts: seq<Token>): nat {
    if ts == [] then 0 else StreamSize(rules, ts[..|ts| - 1]) + TokenSize(rules, ts[|ts| - 1])
  }

  /** The size of two streams written one after the other is the sum of their sizes. */
  lemma {:induction false} StreamSizeAppend(rules: SizeRules, a: seq<Token>, b: seq<Token>)
    ensures StreamSize(rules, a + b) == StreamSize(rules, a) + StreamSize(rules, b)
    decreases |b|
  {
    if b == [] {
      assert a + b == a;
    } else {
      var b' := b[..|b| - 1];
      assert (a + b)[..|a + b| - 1] == a + b';
      StreamSizeAppend(rules, a, b');
    }
  }

  /** The size of a stream is the sum of its tokens' sizes, front to back. */
  lemma StreamSizeCons(rules: SizeRules, t: Token, ts: seq<Token>)
    ensures StreamSize(rules, [t] + ts) == TokenSize(rules, t) + StreamSize(rules, ts)
  {
    StreamSizeAppend(rules, [t], ts);
    assert [t][..0] == [];
  }

  function ReadInt(ts: seq<Token>, default: int): (r: (int, seq<Token>))
    ensures ts != [] && ts[0].IntTok? ==> r == (ts[0].i, ts[1..])
    ensures !(ts != [] && ts[0].IntTok?) ==> r == (default, ts)
  {
    if ts != [] && ts[0].IntTok? then (ts[0].i, ts[1..]) else (default, ts)
  }

  function ReadLong(ts: seq<Token>, default: int): (r: (int, seq<Token>))
    ensures ts != [] && ts[0].LongTok? ==> r == (ts[0].l, ts[1..])
    ensures !(ts != [] && ts[0].LongTok?) ==> r == (default, ts)
  {
    if ts != [] && ts[0].LongTok? then (ts[0].l, ts[1..]) else (default, ts)
  }

  function ReadBool(ts: seq<Token>, default: bool): (r: (bool, seq<Token>))
    ensures ts != [] && ts[0].BoolTok? ==> r == (ts[0].b, ts[1..])
    ensures !(ts != [] && ts[0].BoolTok?) ==> r == (default, ts)
  {
    if ts != [] && ts[0].BoolTok? then (ts[0].b, ts[1..]) else (default, ts)
  }

  /** A string read back; the default is a Java reference that may be null. */
  function ReadString(ts: seq<Token>, default: Option<string>): (r: (Option<string>, seq<Token>))
    ensures ts != [] && ts[0].StrTok? ==> r == (Some(ts[0].s), ts[1..])
    ensures !(ts != [] && ts[0].StrTok?) ==> r == (default, ts)
  {
    if ts != [] && ts[0].StrTok? then (Some(ts[0].s), ts[1..]) else (default, ts)
  }

  /** A long array read back; the default is a Java reference that may be null. */
  function ReadLongArray(ts: seq<Token>, default: Option<seq<int>>): (r: (Option<seq<int>>, seq<Token>))
    ensures ts != [] && ts[0].LongArrayTok? ==> r == (Some(ts[0].a), ts[1..])
    ensures !(ts != [] && ts[0].LongArrayTok?) ==> r == (default, ts)
  {
    if ts != [] && ts[0].LongArrayTok? then (Some(ts[0].a), ts[1..]) else (default, ts)
  }
}
