/** The JSON text that TCP_C/cJSON.c prints and parses. */
module JsonText {
  import opened Basics
  import opened Doubles

  type Text = seq<byte>

  /** The items of an array and the members of an object hang on child and next pointers. A number has the
      fields valueint and valuedouble. */
  datatype Json =
    | Null
    | False
    | True
    | Number(n: int, d: Double)
    | String(s: Text)
    | Array(items: Items)
    | Object(members: Members)
  datatype Items = NoItems | Item(value: Json, more: Items)
  datatype Members = NoMembers | Member(name: Text, value: Json, more: Members)

  const QUOTE: byte := 34
  const BACKSLASH: byte := 92
  const COMMA: byte := 44
  const COLON: byte := 58
  const LBRACKET: byte := 91
  const RBRACKET: byte := 93
  const LBRACE: byte := 123
  const RBRACE: byte := 125
  const MINUS: byte := 45
  const SPACE: byte := 32
  const TAB: byte := 9
  const NEWLINE: byte := 10

  /** The byte that a pointer into a C string points at. */
  function At(t: Text): (b: byte) {
    if t == [] then 0 else t[0]
  }

  /** A parser succeeds with a value and the text after it, fails, or runs into what C leaves undefined. */
  datatype Parsed<T> = Ok(value: T, rest: Text) | Fail | Undefined

  // ---------- white space

  function Skip(t: Text): (r: Text)
    ensures |r| <= |t|
    decreases |t|
  {
    if t != [] && 0 < t[0] <= 32 then Skip(t[1..]) else t
  }

  // ---------- numbers

  /** "%d" */
  function PrintInt(n: int): (s: Text)
    ensures |s| >= 1
  {
    if n < 0 then [MINUS] + Digits(-n) else Digits(n)
  }

  /** A run of digits appended to the number n so far, with the count of digits read. */
  function TakeDigits(fp: Arith, t: Text, n: Double, count: nat): (r: (Double, nat, Text))
    ensures |r.2| <= |t|
    ensures t != [] && IsDigit(t[0]) ==> |r.2| < |t|
    decreases |t|
  {
    if t != [] && IsDigit(t[0]) then
      TakeDigits(fp, t[1..], Add(fp, Mul(fp, n, Finite(10.0)), Finite((t[0] - 48) as real)), count + 1)
    else (n, count, t)
  }

  function TakeExponent(t: Text, e: nat): (r: (nat, Text))
    ensures |r.1| <= |t| && r.0 >= e
    decreases |t|
  {
    if t != [] && IsDigit(t[0]) then TakeExponent(t[1..], e * 10 + (t[0] - 48)) else (e, t)
  }

  /** The exponent part of a number; 0 where there is none. An exponent that is no int overflows, which C leaves
      undefined. */
  function ParseExponent(t: Text): (r: Parsed<int>)
    ensures !r.Fail? && (r.Ok? ==> |r.rest| <= |t|)
  {
    if At(t) == 101 || At(t) == 69 then
      var minus := At(t[1..]) == MINUS;
      var (e, rest) := TakeExponent(if At(t[1..]) == 43 || minus then t[2..] else t[1..], 0);
      if e > INT_MAX then Undefined else Ok(if minus then 0 - e else e, rest)
    else Ok(0, t)
  }

  /** parse_number, up to the assignment of valuedouble. */
  function ParseNumber(fp: Arith, t: Text): (r: Parsed<Double>)
    ensures !r.Fail? && (r.Ok? ==> |r.rest| <= |t|)
    ensures r.Ok? && (At(t) == MINUS || IsDigit(At(t))) ==> |r.rest| < |t|
  {
    var sign := if At(t) == MINUS then Finite(-1.0) else Finite(1.0);
    var t1 := if At(t) == MINUS then t[1..] else t;
    var t2 := if At(t1) == 48 then t1[1..] else t1;
    var (n, _, t3) := if 49 <= At(t2) <= 57 then TakeDigits(fp, t2, Finite(0.0), 0) else (Finite(0.0), 0, t2);
    var (m, scale, t4) :=
      if At(t3) == 46 && |t3| > 1 && IsDigit(t3[1]) then TakeDigits(fp, t3[1..], n, 0) else (n, 0, t3);
    match ParseExponent(t4)
    case Ok(e, t5) => Ok(Mul(fp, Mul(fp, sign, m), Ten(fp, e - scale)), t5)
    case _ => Undefined
  }

  /** What may follow a number without being taken for a part of it. */
  predicate EndsNumber(rest: Text) {
    !IsDigit(At(rest)) && At(rest) != 46 && At(rest) != 101 && At(rest) != 69
  }

  lemma {:induction false} TakeDigitsConcat(fp: Arith, a: Text, b: Text, n: Double, count: nat)
    requires forall i :: 0 <= i < |a| ==> IsDigit(a[i])
    ensures var r := TakeDigits(fp, a, n, count); TakeDigits(fp, a + b, n, count) == TakeDigits(fp, b, r.0, r.1)
    decreases |a|
  {
    if a == [] {
      assert a + b == b;
    } else {
      assert (a + b)[1..] == a[1..] + b;
      TakeDigitsConcat(fp, a[1..], b, Add(fp, Mul(fp, n, Finite(10.0)), Finite((a[0] - 48) as real)), count + 1);
    }
  }

  lemma TakeOne(fp: Arith, n: nat, d: nat, count: nat)
    requires Exact(fp) && d < 10 && n * 10 + d <= TWO53
    ensures TakeDigits(fp, [48 + d], Finite(n as real), count) == (Finite((n * 10 + d) as real), count + 1, [])
  {
    ExactDigit(fp, n, d);
    assert [48 + d][1..] == [];
  }

  lemma {:induction false} TakeOfDigits(fp: Arith, n: nat)
    requires Exact(fp) && n <= TWO53
    ensures TakeDigits(fp, Digits(n), Finite(0.0), 0).0 == Finite(n as real)
    ensures TakeDigits(fp, Digits(n), Finite(0.0), 0).2 == []
  {
    hide TakeDigits, Exact;
    if n < 10 {
      TakeOne(fp, 0, n, 0);
    } else {
      TakeOfDigits(fp, n / 10);
      TakeDigitsConcat(fp, Digits(n / 10), [48 + n % 10], Finite(0.0), 0);
      TakeOne(fp, n / 10, n % 10, TakeDigits(fp, Digits(n / 10), Finite(0.0), 0).1);
    }
  }

  lemma ParseNatural(fp: Arith, n: nat, rest: Text)
    requires Exact(fp) && n <= TWO53 && EndsNumber(rest)
    ensures TakeDigits(fp, Digits(n) + rest, Finite(0.0), 0).0 == Finite(n as real)
    ensures TakeDigits(fp, Digits(n) + rest, Finite(0.0), 0).2 == rest
  {
    TakeOfDigits(fp, n);
    TakeDigitsConcat(fp, Digits(n), rest, Finite(0.0), 0);
  }

  /** sign * n * pow(10.0, 0) */
  lemma SignedInteger(fp: Arith, n: nat, sign: int)
    requires Exact(fp) && n <= TWO53 && (sign == 1 || sign == -1)
    ensures Mul(fp, Mul(fp, Finite(sign as real), Finite(n as real)), Ten(fp, 0)) == Finite((sign * n) as real)
  {
    ExactPower(fp, 0);
    ExactInteger(fp, sign * n);
    assert sign as real * n as real == (sign * n) as real;
    assert (sign * n) as real * 1.0 == (sign * n) as real;
  }

  /** An integer of at most 53 bits is read back from its decimal form. */
  lemma NumberRoundTrip(fp: Arith, n: int, rest: Text)
    requires Exact(fp) && -TWO53 <= n <= TWO53 && EndsNumber(rest)
    ensures ParseNumber(fp, PrintInt(n) + rest) == Ok(Finite(n as real), rest)
  {
    hide TakeDigits, Digits, TakeExponent, Exact, Mul, Power10;
    var m: nat := if n < 0 then -n else n;
    var t := PrintInt(n) + rest;
    var t1 := if At(t) == MINUS then t[1..] else t;
    DigitsStart(m);
    assert t1 == Digits(m) + rest;
    ParseNatural(fp, m, rest);
    if m == 0 {
      ZeroDigits();
      assert t1[1..] == rest;
    }
    SignedInteger(fp, m, if n < 0 then -1 else 1);
  }

  lemma DigitsStart(n: nat)
    ensures IsDigit(Digits(n)[0]) && (n > 0 ==> Digits(n)[0] != 48)
  {
  }

  lemma ZeroDigits()
    ensures Digits(0) == [48]
  {
  }

  // ---------- strings

  function HexDigit(n: nat): (b: byte)
    requires n < 16
  {
    if n < 10 then 48 + n else 87 + n
  }

  /** How print_string_ptr writes one byte that is not the terminator. */
  function Escape(b: byte): (s: Text)
    ensures 1 <= |s| <= 6
  {
    if b > 31 && b != QUOTE && b != BACKSLASH then [b]
    else if b == BACKSLASH then [BACKSLASH, BACKSLASH]
    else if b == QUOTE then [BACKSLASH, QUOTE]
    else if b == 8 then [BACKSLASH, 98]
    else if b == 12 then [BACKSLASH, 102]
    else if b == 10 then [BACKSLASH, 110]
    else if b == 13 then [BACKSLASH, 114]
    else if b == 9 then [BACKSLASH, 116]
    else [BACKSLASH, 117, 48, 48, HexDigit(b / 16), HexDigit(b % 16)]
  }

  function EscapeAll(s: Text): (r: Text)
    decreases |s|
  {
    if s == [] then [] else Escape(s[0]) + EscapeAll(s[1..])
  }

  function PrintString(s: Text): (r: Text) {
    [QUOTE] + EscapeAll(s) + [QUOTE]
  }

  predicate IsHex(b: byte) {
    IsDigit(b) || 65 <= b <= 70 || 97 <= b <= 102
  }

  function HexValue(b: byte): (n: nat)
    requires IsHex(b)
    ensures n < 16
  {
    if IsDigit(b) then b - 48 else if b <= 70 then b - 55 else b - 87
  }

  /** The backslash at t starts a complete four-digit escape. */
  predicate IsUnicode(t: Text) {
    |t| >= 6 && t[0] == BACKSLASH && t[1] == 117 && IsHex(t[2]) && IsHex(t[3]) && IsHex(t[4]) && IsHex(t[5])
  }

  function CodeOf(t: Text): (n: nat)
    requires IsUnicode(t)
    ensures n < 0x10000
  {
    ((HexValue(t[2]) * 16 + HexValue(t[3])) * 16 + HexValue(t[4])) * 16 + HexValue(t[5])
  }

  /** The UTF-8 form that parse_string writes, in section 3 of RFC 3629. */
  function Utf8(uc: nat): (s: Text)
    requires uc < 0x110000
    ensures 1 <= |s| <= 4
  {
    if uc < 0x80 then [uc]
    else if uc < 0x800 then [0xC0 + uc / 0x40, 0x80 + uc % 0x40]
    else if uc < 0x10000 then [0xE0 + uc / 0x1000, 0x80 + uc / 0x40 % 0x40, 0x80 + uc % 0x40]
    else [0xF0 + uc / 0x40000, 0x80 + uc / 0x1000 % 0x40, 0x80 + uc / 0x40 % 0x40, 0x80 + uc % 0x40]
  }

  /** 0x10000 | ((uc & 0x3FF) << 10) | (uc2 & 0x3FF): bit 16 may be set in the second operand already. */
  function Combine(uc: nat, uc2: nat): (r: nat)
    ensures r < 0x110000
  {
    var v := uc % 0x400 * 0x400 + uc2 % 0x400;
    if v / 0x10000 % 2 == 1 then v else v + 0x10000
  }

  /** One step of parse_string: what it writes, and how many bytes of the text it takes; None where a character
      is missing or an escape is not complete. */
  datatype Piece = Piece(out: Text, taken: nat) | Broken

  function UnescapeOne(t: Text): (p: Piece)
    requires t != [] && t[0] != 0 && t[0] != QUOTE
    ensures p.Piece? ==> 1 <= p.taken <= |t| && |p.out| <= p.taken
  {
    if t[0] != BACKSLASH then Piece([t[0]], 1)
    else if |t| < 2 || t[1] == 0 then Broken
    else if t[1] == 98 then Piece([8], 2)
    else if t[1] == 102 then Piece([12], 2)
    else if t[1] == 110 then Piece([10], 2)
    else if t[1] == 114 then Piece([13], 2)
    else if t[1] == 116 then Piece([9], 2)
    else if t[1] != 117 then Piece([t[1]], 2)
    else if !IsUnicode(t) then Broken
    else
      var uc := CodeOf(t);
      if 0xDC00 <= uc <= 0xDFFF || uc == 0 then Piece([], 6)
      else if 0xD800 <= uc <= 0xDBFF then
        if |t| < 8 || t[6] != BACKSLASH || t[7] != 117 then Piece([], 6)
        else if !IsUnicode(t[6..]) then Broken
        else
          var uc2 := CodeOf(t[6..]);
          if uc2 < 0xDC00 || uc2 > 0xDFFF then Piece([], 12) else Piece(Utf8(Combine(uc, uc2)), 12)
      else Piece(Utf8(uc), 6)
  }

  /** parse_string after the opening quote. A missing closing quote is not an error. */
  function Unescape(t: Text): (r: Parsed<Text>)
    ensures r.Ok? ==> |r.rest| <= |t|
    decreases |t|
  {
    if t == [] || t[0] == 0 then Ok([], t)
    else if t[0] == QUOTE then Ok([], t[1..])
    else
      match UnescapeOne(t)
      case Broken => Undefined
      case Piece(out, k) =>
        match Unescape(t[k..])
        case Ok(s, rest) => Ok(out + s, rest)
        case Fail => Fail
        case Undefined => Undefined
  }

  function ParseString(t: Text): (r: Parsed<Text>)
    ensures r.Ok? ==> |r.rest| < |t|
  {
    if At(t) != QUOTE then Fail else Unescape(t[1..])
  }

  lemma EscapeOneRoundTrip(b: byte, rest: Text)
    requires b != 0
    ensures var t := Escape(b) + rest;
            t[0] != 0 && t[0] != QUOTE && UnescapeOne(t) == Piece([b], |Escape(b)|)
  {
    var t := Escape(b) + rest;
    if b < 32 && b != 8 && b != 12 && b != 10 && b != 13 && b != 9 {
      assert t[..6] == Escape(b);
      assert HexValue(HexDigit(b / 16)) == b / 16 && HexValue(HexDigit(b % 16)) == b % 16;
      assert IsUnicode(t) && CodeOf(t) == b;
    }
  }

  /** Every string without a NUL is read back from what is printed for it. */
  lemma {:induction false} StringRoundTrip(s: Text, rest: Text)
    requires 0 !in s
    ensures Unescape(EscapeAll(s) + [QUOTE] + rest) == Ok(s, rest)
    decreases |s|
  {
    hide Escape, UnescapeOne;
    var t := EscapeAll(s) + [QUOTE] + rest;
    if s == [] {
      assert t[1..] == rest;
    } else {
      var after := EscapeAll(s[1..]) + [QUOTE] + rest;
      assert t == Escape(s[0]) + after;
      EscapeOneRoundTrip(s[0], after);
      assert t[|Escape(s[0])|..] == after;
      StringRoundTrip(s[1..], rest);
      assert [s[0]] + s[1..] == s;
    }
  }

  // ---------- printing values

  function Tabs(k: nat): (s: Text)
    ensures |s| == k && forall i :: 0 <= i < k ==> s[i] == TAB
  {
    seq(k, _ => TAB)
  }

  /** print_value; `fmt` asks for the formatted form. A number that is no integer of C's int range is outside of
      this function's domain. */
  function Print(v: Json, depth: nat, fmt: bool): (s: Text)
    requires Printable(v)
    ensures |s| >= 1
  {
    match v
    case Null => [110, 117, 108, 108]
    case False => [102, 97, 108, 115, 101]
    case True => [116, 114, 117, 101]
    case Number(n, _) => PrintInt(n)
    case String(s) => PrintString(s)
    case Array(items) => [LBRACKET] + PrintItems(items, depth + 1, fmt) + [RBRACKET]
    case Object(members) =>
      [LBRACE] + (if fmt then [NEWLINE] else []) + PrintMembers(members, depth + 1, fmt) +
      (if fmt then Tabs(depth) else []) + [RBRACE]
  }

  function PrintItems(items: Items, depth: nat, fmt: bool): (s: Text)
    requires PrintableItems(items)
  {
    match items
    case NoItems => []
    case Item(v, more) =>
      Print(v, depth, fmt) +
      (if more.NoItems? then [] else [COMMA] + (if fmt then [SPACE] else []) + PrintItems(more, depth, fmt))
  }

  function PrintMembers(members: Members, depth: nat, fmt: bool): (s: Text)
    requires PrintableMembers(members)
  {
    match members
    case NoMembers => []
    case Member(name, v, more) =>
      (if fmt then Tabs(depth) else []) + PrintString(name) + [COLON] + (if fmt then [TAB] else []) +
      Print(v, depth, fmt) +
      (if more.NoMembers? then [] else [COMMA]) + (if fmt then [NEWLINE] else []) +
      PrintMembers(more, depth, fmt)
  }

  /** Numbers are integers of C's int range, strings and names hold no NUL. */
  predicate Printable(v: Json) {
    match v
    case Number(n, d) => INT_MIN <= n <= INT_MAX && d == Finite(n as real)
    case String(s) => 0 !in s
    case Array(items) => PrintableItems(items)
    case Object(members) => PrintableMembers(members)
    case _ => true
  }

  predicate PrintableItems(items: Items) {
    items.Item? ==> Printable(items.value) && PrintableItems(items.more)
  }

  predicate PrintableMembers(members: Members) {
    members.Member? ==> 0 !in members.name && Printable(members.value) && PrintableMembers(members.more)
  }

  // ---------- parsing values

  /** strncmp(t, word, |word|) == 0 */
  predicate StartsWith(t: Text, word: Text) {
    |t| >= |word| && t[..|word|] == word
  }

  /** parse_value */
  function Parse(fp: Arith, t: Text): (r: Parsed<Json>)
    ensures r.Ok? ==> |r.rest| < |t|
    decreases |t|, 0
  {
    if StartsWith(t, [110, 117, 108, 108]) then Ok(Null, t[4..])
    else if StartsWith(t, [102, 97, 108, 115, 101]) then Ok(False, t[5..])
    else if StartsWith(t, [116, 114, 117, 101]) then Ok(True, t[4..])
    else if At(t) == QUOTE then
      match ParseString(t)
      case Ok(s, rest) => Ok(String(s), rest)
      case Fail => Fail
      case Undefined => Undefined
    else if At(t) == MINUS || IsDigit(At(t)) then
      match ParseNumber(fp, t)
      case Ok(d, rest) => Ok(Number(ToInt(fp, d), d), rest)
      case _ => Undefined
    else if At(t) == LBRACKET then
      var t1 := Skip(t[1..]);
      if At(t1) == RBRACKET then Ok(Array(NoItems), t1[1..])
      else
        match ParseItems(fp, t1)
        case Ok(items, rest) => Ok(Array(items), rest)
        case Fail => Fail
        case Undefined => Undefined
    else if At(t) == LBRACE then
      var t1 := Skip(t[1..]);
      if At(t1) == RBRACE then Ok(Object(NoMembers), t1[1..])
      else
        match ParseMembers(fp, t1)
        case Ok(members, rest) => Ok(Object(members), rest)
        case Fail => Fail
        case Undefined => Undefined
    else Fail
  }

  /** The items of an array, from the first one or one after a comma, to the closing bracket. */
  function ParseItems(fp: Arith, t: Text): (r: Parsed<Items>)
    ensures r.Ok? ==> |r.rest| < |t|
    decreases |t|, 1
  {
    match Parse(fp, Skip(t))
    case Fail => Fail
    case Undefined => Undefined
    case Ok(v, rest) =>
      var t1 := Skip(rest);
      if At(t1) == COMMA then
        match ParseItems(fp, t1[1..])
        case Ok(more, rest') => Ok(Item(v, more), rest')
        case Fail => Fail
        case Undefined => Undefined
      else if At(t1) == RBRACKET then Ok(Item(v, NoItems), t1[1..])
      else Fail
  }

  /** The members of an object, in the same way. */
  function ParseMembers(fp: Arith, t: Text): (r: Parsed<Members>)
    ensures r.Ok? ==> |r.rest| < |t|
    decreases |t|, 1
  {
    match ParseString(Skip(t))
    case Fail => Fail
    case Undefined => Undefined
    case Ok(name, rest) =>
      var t1 := Skip(rest);
      if At(t1) != COLON then Fail
      else
        match Parse(fp, Skip(t1[1..]))
        case Fail => Fail
        case Undefined => Undefined
        case Ok(v, rest') =>
          var t2 := Skip(rest');
          if At(t2) == COMMA then
            match ParseMembers(fp, t2[1..])
            case Ok(more, rest'') => Ok(Member(name, v, more), rest'')
            case Fail => Fail
            case Undefined => Undefined
          else if At(t2) == RBRACE then Ok(Member(name, v, NoMembers), t2[1..])
          else Fail
  }
}
