/** What the models of the different files share. */
module Basics {

  type byte = b: int | 0 <= b < 256

  const INT_MIN: int := -0x8000_0000
  const INT_MAX: int := 0x7fff_ffff

  datatype Option<T> = None | Some(value: T)

  /** isdigit */
  predicate IsDigit(b: byte) {
    48 <= b <= 57
  }

  /** What "%d" prints for a number that is not negative. */
  function Digits(n: nat): (s: seq<byte>)
    ensures |s| >= 1 && forall i :: 0 <= i < |s| ==> IsDigit(s[i])
    ensures n > 0 ==> s[0] != 48
  {
    if n < 10 then [48 + n] else Digits(n / 10) + [48 + n % 10]
  }

  /** All the values of a map together. */
  ghost function SumOf(m: map<nat, int>): (n: int)
    decreases |m|
  {
    if m == map[] then 0
    else var k :| k in m; m[k] + SumOf(m - {k})
  }

  /** ... in whatever order they are taken. */
  lemma {:induction false} SumOfTake(m: map<nat, int>, k: nat)
    requires k in m
    ensures SumOf(m) == m[k] + SumOf(m - {k})
    decreases |m|
  {
    assert m != map[];
    var j :| j in m && SumOf(m) == m[j] + SumOf(m - {j});
    if k != j {
      SumOfTake(m - {j}, k);
      SumOfTake(m - {k}, j);
      assert m - {j} - {k} == m - {k} - {j};
    }
  }
}
