/** Small definitions shared by the modules of the model. */
module Prelude {
  datatype Option<+T> = None | Some(value: T)

  /** The result of an operation that the source ends either normally or by raising. */
  datatype Result<+T> = Ok(value: T) | Err(reason: string)

  /** Rounding to the nearest integer, ties to even, as Python's round does. */
  function HalfEven(x: real): int {
    var below := x.Floor;
    var rest := x - below as real;
    if rest < 0.5 || (rest == 0.5 && below % 2 == 0) then below else below + 1
  }

  /** A text of this many lower-case hexadecimal digits. */
  predicate LowerHex(s: string, size: nat) {
    |s| == size && forall i | 0 <= i < size :: s[i] in "0123456789abcdef"
  }

  lemma HexDigitIs(c: char)
    ensures '0' <= c <= '9' || 'a' <= c <= 'f' <==> c in "0123456789abcdef"
  {
    var digits := "0123456789abcdef";
    if '0' <= c <= '9' {
      assert digits[c as int - '0' as int] == c;
    } else if 'a' <= c <= 'f' {
      assert digits[10 + (c as int - 'a' as int)] == c;
    }
  }

  /** Counting one place further. */
  lemma OneMore(before: set<nat>, after: set<nat>, n: nat, counted: bool)
    requires forall i | i in before :: i < n
    requires forall i: nat :: i in after <==> i in before || (i == n && counted)
    ensures |after| == |before| + if counted then 1 else 0
  {
    assert after == before + if counted then {n} else {};
  }
}
