/** The ASCII fields and records of the index file of apue.3e/db/db.c. */
module DbFormat {
  import opened Basics

  const SEP: byte := 58
  const SPACE: byte := 32
  const NEWLINE: byte := 10

  const PTR_SZ: nat := 7
  const PTR_MAX: nat := 9999999
  const IDXLEN_SZ: nat := 4
  const IDXLEN_MIN: nat := 6
  const IDXLEN_MAX: nat := 1024
  const DATLEN_MIN: nat := 2
  const DATLEN_MAX: nat := 1024

  /** isspace */
  predicate IsBlank(b: byte) {
    b == 32 || 9 <= b <= 13
  }

  function Blanks(k: nat): (s: seq<byte>)
    ensures |s| == k && forall i :: 0 <= i < k ==> s[i] == SPACE
  {
    seq(k, _ => SPACE)
  }

  /** What "%*d" prints in a field of width w. */
  function Pad(w: nat, n: nat): (s: seq<byte>)
    ensures |s| >= w
  {
    var d := Digits(n);
    if |d| < w then Blanks(w - |d|) + d else d
  }

  function ParseDigits(s: seq<byte>, acc: nat): (n: nat)
    decreases |s|
  {
    if s == [] || !IsDigit(s[0]) then acc else ParseDigits(s[1..], acc * 10 + (s[0] - 48))
  }

  /** atol */
  function Atol(s: seq<byte>): (n: int)
    decreases |s|
  {
    if s == [] then 0
    else if IsBlank(s[0]) then Atol(s[1..])
    else if s[0] == 45 then 0 - ParseDigits(s[1..], 0)
    else if s[0] == 43 then ParseDigits(s[1..], 0)
    else ParseDigits(s, 0)
  }

  lemma {:induction false} ParseDigitsConcat(a: seq<byte>, b: seq<byte>, acc: nat)
    requires forall i :: 0 <= i < |a| ==> IsDigit(a[i])
    ensures ParseDigits(a + b, acc) == ParseDigits(b, ParseDigits(a, acc))
    decreases |a|
  {
    if a == [] {
      assert a + b == b;
    } else {
      assert (a + b)[1..] == a[1..] + b;
      ParseDigitsConcat(a[1..], b, acc * 10 + (a[0] - 48));
    }
  }

  lemma {:induction false} ParseOfDigits(n: nat)
    ensures ParseDigits(Digits(n), 0) == n
  {
    if n < 10 {
      assert ParseDigits([48 + n][1..], n) == n;
    } else {
      ParseOfDigits(n / 10);
      ParseDigitsConcat(Digits(n / 10), [48 + n % 10], 0);
      assert ParseDigits([48 + n % 10][1..], n) == n;
    }
  }

  lemma {:induction false} AtolOfPad(k: nat, n: nat)
    ensures Atol(Blanks(k) + Digits(n)) == n
  {
    if k == 0 {
      assert Blanks(0) + Digits(n) == Digits(n);
      ParseOfDigits(n);
    } else {
      assert (Blanks(k) + Digits(n))[1..] == Blanks(k - 1) + Digits(n);
      AtolOfPad(k - 1, n);
    }
  }

  /** A number printed in a field of any width is read back. */
  lemma AtolPad(w: nat, n: nat)
    ensures Atol(Pad(w, n)) == n
  {
    var d := Digits(n);
    AtolOfPad(if |d| < w then w - |d| else 0, n);
    assert Blanks(0) + d == d;
  }

  function Pow10(k: nat): (p: nat) {
    if k == 0 then 1 else 10 * Pow10(k - 1)
  }

  lemma {:induction false} DigitsLength(n: nat, k: nat)
    requires k >= 1
    ensures |Digits(n)| <= k <==> n < Pow10(k)
  {
    assert Pow10(0) == 1;
    if k > 1 {
      DigitsLength(n / 10, k - 1);
      DigitsLength(0, k - 1);
    }
  }

  lemma PadWidth(n: nat)
    ensures n <= PTR_MAX <==> |Pad(PTR_SZ, n)| == PTR_SZ
    ensures n <= 9999 <==> |Pad(IDXLEN_SZ, n)| == IDXLEN_SZ
  {
    assert Pow10(4) == 10 * (10 * Pow10(2)) == 10000;
    assert Pow10(7) == 10 * (10 * (10 * Pow10(4))) == 10000000;
    DigitsLength(n, 4);
    DigitsLength(n, 7);
  }

  function IndexOf(s: seq<byte>, b: byte): (r: Option<nat>)
    ensures r.None? <==> b !in s
    ensures r.Some? ==> r.value < |s| && s[r.value] == b && b !in s[..r.value]
    decreases |s|
  {
    if s == [] then None
    else if s[0] == b then Some(0)
    else
      assert s == [s[0]] + s[1..];
      match IndexOf(s[1..], b)
      case None => None
      case Some(i) => assert s[..i + 1] == [s[0]] + s[1..][..i]; Some(i + 1)
  }

  /** The part of an index record after the chain pointer and the length, as _db_writeidx prints it. */
  function Body(key: seq<byte>, datoff: nat, datlen: nat): (s: seq<byte>) {
    key + [SEP] + Digits(datoff) + [SEP] + Digits(datlen) + [NEWLINE]
  }

  datatype Parsed = Parsed(key: seq<byte>, datoff: int, datlen: int)

  /** The offset and length of the data, after the first separator. */
  function ParseRest(key: seq<byte>, rest: seq<byte>): (r: Option<Parsed>) {
    match IndexOf(rest, SEP)
    case None => None
    case Some(j) =>
      var tail := rest[j + 1..];
      if SEP in tail then None
      else
        var datoff, datlen := Atol(rest[..j]), Atol(tail);
        if datoff < 0 || datlen <= 0 || datlen > DATLEN_MAX then None
        else Some(Parsed(key, datoff, datlen))
  }

  /** What _db_readidx makes of the part after the length; None where it gives up. */
  function ParseBody(buf: seq<byte>): (r: Option<Parsed>) {
    if buf == [] || buf[|buf| - 1] != NEWLINE then None
    else
      var s := buf[..|buf| - 1];
      match IndexOf(s, SEP)
      case None => None
      case Some(i) => ParseRest(s[..i], s[i + 1..])
  }

  lemma FirstIndex(a: seq<byte>, b: byte, c: seq<byte>)
    requires b !in a
    ensures IndexOf(a + [b] + c, b) == Some(|a|)
  {
    var s := a + [b] + c;
    assert s[|a|] == b;
    var i := IndexOf(s, b).value;
  }

  lemma DigitsNoSep(n: nat)
    ensures SEP !in Digits(n)
  {
  }

  lemma AtolDigits(n: nat)
    ensures Atol(Digits(n)) == n
  {
    AtolPad(0, n);
  }

  lemma RestOf(key: seq<byte>, datoff: nat, datlen: nat)
    requires 1 <= datlen <= DATLEN_MAX
    ensures ParseRest(key, Digits(datoff) + [SEP] + Digits(datlen)) == Some(Parsed(key, datoff, datlen))
  {
    hide Digits, Atol;
    var d1, d2 := Digits(datoff), Digits(datlen);
    DigitsNoSep(datoff);
    DigitsNoSep(datlen);
    FirstIndex(d1, SEP, d2);
    var rest := d1 + [SEP] + d2;
    assert rest[..|d1|] == d1 && rest[|d1| + 1..] == d2;
    AtolDigits(datoff);
    AtolDigits(datlen);
  }

  lemma BodyWithoutSep(key: seq<byte>, datoff: nat, datlen: nat)
    requires SEP !in key && 1 <= datlen <= DATLEN_MAX
    ensures ParseBody(Body(key, datoff, datlen)) == Some(Parsed(key, datoff, datlen))
  {
    hide Digits, ParseRest;
    var buf := Body(key, datoff, datlen);
    var c := Digits(datoff) + [SEP] + Digits(datlen);
    var s := buf[..|buf| - 1];
    assert s == key + [SEP] + c;
    FirstIndex(key, SEP, c);
    assert s[..|key|] == key && s[|key| + 1..] == c;
    RestOf(key, datoff, datlen);
  }

  /** Two more separators after the first are one too many. */
  lemma RestOverfull(key: seq<byte>, a: seq<byte>, b: seq<byte>, c: seq<byte>)
    ensures ParseRest(key, a + [SEP] + b + [SEP] + c) == None
  {
    var rest := a + [SEP] + b + [SEP] + c;
    var last := |a| + 1 + |b|;
    assert rest[|a|] == SEP && rest[last] == SEP;
    var j := IndexOf(rest, SEP).value;
    assert rest[j + 1..][last - j - 1] == SEP;
  }

  lemma BodyWithSep(key: seq<byte>, datoff: nat, datlen: nat)
    requires SEP in key
    ensures ParseBody(Body(key, datoff, datlen)) == None
  {
    hide Digits, ParseRest;
    var buf := Body(key, datoff, datlen);
    var d1, d2 := Digits(datoff), Digits(datlen);
    var s := buf[..|buf| - 1];
    var k := IndexOf(key, SEP).value;
    var k2 := key[k + 1..];
    var c := k2 + [SEP] + d1 + [SEP] + d2;
    assert s == key[..k] + [SEP] + c;
    FirstIndex(key[..k], SEP, c);
    assert s[k + 1..] == c;
    RestOverfull(s[..k], k2, d1, d2);
  }

  /** An index record is read back as it was written exactly when its key holds no separator. */
  lemma BodyRoundTrip(key: seq<byte>, datoff: nat, datlen: nat)
    requires 1 <= datlen <= DATLEN_MAX
    ensures ParseBody(Body(key, datoff, datlen)) == Some(Parsed(key, datoff, datlen)) <==> SEP !in key
  {
    if SEP in key {
      BodyWithSep(key, datoff, datlen);
    } else {
      BodyWithoutSep(key, datoff, datlen);
    }
  }
}
