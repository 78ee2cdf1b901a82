/**
 * The text handling the loaders rely on: `String.split("\\s")`, `Long.parseLong`
 * and `String.valueOf(long)`, over ASCII strings.
 */
module Text {
  import opened Wrappers
  import opened Numeric

  /** The characters the regular expression `\s` matches. */
  predicate IsSpace(c: char) {
    c == ' ' || c == '\t' || c == '\n' || c == '\U{B}' || c == '\U{C}' || c == '\r'
  }

  predicate IsDigit(c: char) { '0' <= c <= '9' }

  predicate HasSpace(s: string) { exists i :: 0 <= i < |s| && IsSpace(s[i]) }

  /** A piece of a split line: no whitespace inside. */
  predicate NoSpace(p: string) { forall c :: c in p ==> !IsSpace(c) }

  /** Cut `s` at every whitespace character; `k` separators give `k + 1` pieces. */
  function Pieces(s: string): (r: seq<string>)
    ensures |r| >= 1
    ensures forall i :: 0 <= i < |r| ==> NoSpace(r[i])
  {
    if s == [] then [""]
    else
      var rest := Pieces(s[1..]);
      if IsSpace(s[0]) then [""] + rest
      else
        assert NoSpace([s[0]] + rest[0]) by {
          forall c | c in [s[0]] + rest[0] ensures !IsSpace(c) {
            if c != s[0] { assert c in rest[0]; }
          }
        }
        [[s[0]] + rest[0]] + rest[1..]
  }

  function DropTrailingEmpty(ps: seq<string>): (r: seq<string>)
    ensures |r| <= |ps| && r == ps[..|r|]
    ensures r != [] ==> r[|r| - 1] != ""
  {
    if ps == [] then []
    else if ps[|ps| - 1] == "" then DropTrailingEmpty(ps[..|ps| - 1])
    else ps
  }

  /**
   * `line.split("\\s")`: the pieces between whitespace characters, trailing empty
   * pieces removed; a line without whitespace is returned whole (even when empty).
   */
  function Split(line: string): (r: seq<string>)
    ensures forall i :: 0 <= i < |r| ==> NoSpace(r[i])
  {
    if HasSpace(line) then DropTrailingEmpty(Pieces(line))
    else
      assert Pieces(line) == [line] by { NoSpacePieces(line); }
      [line]
  }

  lemma {:induction false} NoSpacePieces(s: string)
    requires !HasSpace(s)
    ensures Pieces(s) == [s]
  {
    if s != [] {
      assert !HasSpace(s[1..]) by {
        forall i | 0 <= i < |s[1..]| ensures !IsSpace(s[1..][i]) { assert s[1..][i] == s[i + 1]; }
      }
      NoSpacePieces(s[1..]);
      assert [s[0]] + s[1..] == s;
    }
  }

  function DigitChar(d: nat): (c: char)
    requires d < 10
    ensures IsDigit(c)
  {
    (('0' as int) + d) as char
  }

  function DigitValue(c: char): (d: nat)
    requires IsDigit(c)
    ensures d < 10
  {
    (c as int) - ('0' as int)
  }

  /** Decimal digits of `n`, most significant first, without leading zeros. */
  function NatDigits(n: nat): (s: string)
    ensures |s| >= 1
    decreases n
  {
    if n < 10 then [DigitChar(n)] else NatDigits(n / 10) + [DigitChar(n % 10)]
  }

  /** `NatDigits` writes decimal digits only. */
  lemma {:induction false} NatDigitsAreDigits(n: nat)
    ensures forall c :: c in NatDigits(n) ==> IsDigit(c)
    decreases n
  {
    if n >= 10 {
      NatDigitsAreDigits(n / 10);
    }
  }

  /** The value of a string of decimal digits. */
  function DigitsValue(s: string): nat
    requires forall c :: c in s ==> IsDigit(c)
  {
    if s == [] then 0 else DigitsValue(s[..|s| - 1]) * 10 + DigitValue(s[|s| - 1])
  }

  /** `String.valueOf(long)`: the decimal form, with a leading '-' when negative. */
  function LongToString(x: int): (s: string)
    ensures |s| >= 1
  {
    if x < 0 then "-" + NatDigits(-x) else NatDigits(x)
  }

  /**
   * `Long.parseLong(s)`: an optional sign followed by at least one decimal digit,
   * whose value fits in a long; None stands for `NumberFormatException`.
   */
  function ParseLong(s: string): (r: Option<int>)
    ensures r.Some? ==> IsLong(r.value)
  {
    if s == [] then None
    else
      var negative := s[0] == '-';
      var body := if s[0] == '-' || s[0] == '+' then s[1..] else s;
      if body == [] || !(forall c :: c in body ==> IsDigit(c)) then None
      else
        var v: int := if negative then -(DigitsValue(body) as int) else DigitsValue(body) as int;
        if IsLong(v) then Some(v) else None
  }

  lemma {:induction false} NatDigitsValue(n: nat)
    ensures (forall c :: c in NatDigits(n) ==> IsDigit(c)) && DigitsValue(NatDigits(n)) == n
    decreases n
  {
    NatDigitsAreDigits(n);
    if n >= 10 {
      var s := NatDigits(n / 10) + [DigitChar(n % 10)];
      assert s[..|s| - 1] == NatDigits(n / 10);
      NatDigitsAreDigits(n / 10);
      NatDigitsValue(n / 10);
    }
  }

  /** Reading back what `String.valueOf` wrote gives the same long. */
  lemma ParseLongToString(x: int)
    requires IsLong(x)
    ensures ParseLong(LongToString(x)) == Some(x)
  {
    if x < 0 {
      var s := LongToString(x);
      assert s[1..] == NatDigits(-x);
      NatDigitsAreDigits(-x);
      NatDigitsValue(-x);
    } else {
      var s := LongToString(x);
      NatDigitsAreDigits(x);
      assert IsDigit(s[0]);
      NatDigitsValue(x);
    }
  }

  /** A decimal string never contains whitespace, so it survives `split`. */
  lemma LongToStringHasNoSpace(x: int)
    ensures NoSpace(LongToString(x))
  {
    NatDigitsAreDigits(if x < 0 then -x else x);
  }

  /** Splitting "a b" written by the symmetriser gives back the two numbers. */
  lemma {:induction false} SplitPair(a: string, b: string)
    requires a != "" && b != ""
    requires NoSpace(a) && NoSpace(b)
    ensures Split(a + " " + b) == [a, b]
  {
    var s := a + " " + b;
    assert IsSpace(s[|a|]);
    PiecesConcat(a, b);
  }

  lemma {:induction false} PiecesConcat(a: string, b: string)
    requires NoSpace(a) && NoSpace(b)
    ensures Pieces(a + " " + b) == [a, b]
    decreases |a|
  {
    if a == [] {
      assert (a + " " + b)[1..] == b;
      assert !HasSpace(b);
      NoSpacePieces(b);
    } else {
      assert (a + " " + b)[1..] == a[1..] + " " + b;
      PiecesConcat(a[1..], b);
      assert [a[0]] + a[1..] == a;
    }
  }
}
