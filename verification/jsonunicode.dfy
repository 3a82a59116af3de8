/** What cJSON.c makes of texts that it did not print: escapes as section 7 of RFC 8259 has them, code points as section
    3 of RFC 3629 encodes them, and the three words. */
module JsonUnicode {
  import opened Basics
  import opened Doubles
  import opened JsonText

  // ---------- UTF-8, by decoding

  /** How many bytes a sequence has that starts with this one; 0 for a byte that starts none. */
  function SequenceLength(lead: byte): (n: nat) {
    if lead < 0x80 then 1
    else if lead < 0xC0 then 0
    else if lead < 0xE0 then 2
    else if lead < 0xF0 then 3
    else if lead < 0xF8 then 4
    else 0
  }

  /** The bits of the lead byte that belong to the code point. */
  function LeadBits(lead: byte): (n: nat) {
    if lead < 0x80 then lead
    else if lead < 0xE0 then lead % 0x20
    else if lead < 0xF0 then lead % 0x10
    else lead % 0x08
  }

  /** The number that lead byte and continuation bytes spell, six bits to each of the latter. */
  function Bits(s: Text): (n: nat)
    requires s != []
    decreases |s|
  {
    if |s| == 1 then LeadBits(s[0]) else Bits(s[..|s| - 1]) * 0x40 + s[|s| - 1] % 0x40
  }

  /** The smallest code point that needs a sequence of this length. */
  function Smallest(length: nat): (n: nat) {
    if length <= 1 then 0 else if length == 2 then 0x80 else if length == 3 then 0x800 else 0x10000
  }

  /** s is the one UTF-8 form of code point n. */
  ghost predicate IsForm(s: Text, n: nat) {
    && s != [] && |s| == SequenceLength(s[0]) && Bits(s) == n && n >= Smallest(|s|)
    && forall i :: 1 <= i < |s| ==> 0x80 <= s[i] <= 0xBF
  }

  lemma BitsStep(s: Text, b: byte)
    requires s != []
    ensures Bits(s + [b]) == Bits(s) * 0x40 + b % 0x40
  {
    assert (s + [b])[..|s|] == s;
  }

  lemma BitsTwo(a: byte, b: byte)
    ensures Bits([a, b]) == LeadBits(a) * 0x40 + b % 0x40
  {
    assert [a, b] == [a] + [b];
    BitsStep([a], b);
  }

  lemma BitsThree(a: byte, b: byte, c: byte)
    ensures Bits([a, b, c]) == (LeadBits(a) * 0x40 + b % 0x40) * 0x40 + c % 0x40
  {
    assert [a, b, c] == [a, b] + [c];
    BitsTwo(a, b);
    BitsStep([a, b], c);
  }

  lemma BitsFour(a: byte, b: byte, c: byte, d: byte)
    ensures Bits([a, b, c, d]) == ((LeadBits(a) * 0x40 + b % 0x40) * 0x40 + c % 0x40) * 0x40 + d % 0x40
  {
    assert [a, b, c, d] == [a, b, c] + [d];
    BitsThree(a, b, c);
    BitsStep([a, b, c], d);
  }

  lemma BitsOne(a: byte)
    ensures Bits([a]) == LeadBits(a)
  {
  }

  lemma Sixes(n: nat)
    ensures n == n / 0x40 * 0x40 + n % 0x40 && n / 0x40 / 0x40 == n / 0x1000 && n / 0x1000 / 0x40 == n / 0x40000
  {
  }

  lemma FormThree(n: nat)
    requires 0x800 <= n < 0x10000
    ensures IsForm(Utf8(n), n)
  {
    hide Bits;
    Sixes(n);
    Sixes(n / 0x40);
    var a: byte, b: byte, c: byte := 0xE0 + n / 0x1000, 0x80 + n / 0x40 % 0x40, 0x80 + n % 0x40;
    BitsThree(a, b, c);
    assert LeadBits(a) == n / 0x1000 && b % 0x40 == n / 0x40 % 0x40 && c % 0x40 == n % 0x40;
    assert Utf8(n) == [a, b, c];
  }

  lemma FormFour(n: nat)
    requires 0x10000 <= n < 0x110000
    ensures IsForm(Utf8(n), n)
  {
    hide Bits;
    Sixes(n);
    Sixes(n / 0x40);
    Sixes(n / 0x1000);
    var lead: nat, a: nat, b: nat, c: nat := n / 0x40000, n / 0x1000 % 0x40, n / 0x40 % 0x40, n % 0x40;
    assert lead < 8;
    BitsFour(0xF0 + lead, 0x80 + a, 0x80 + b, 0x80 + c);
    LeadFour(lead);
    TailBits(a);
    TailBits(b);
    TailBits(c);
    assert Utf8(n) == [0xF0 + lead, 0x80 + a, 0x80 + b, 0x80 + c];
  }

  lemma LeadFour(lead: nat)
    requires lead < 8
    ensures LeadBits(0xF0 + lead) == lead && SequenceLength(0xF0 + lead) == 4
  {
  }

  lemma TailBits(a: nat)
    requires a < 0x40
    ensures (0x80 + a) % 0x40 == a
  {
  }

  /** What parse_string writes for a code point is its UTF-8 form. */
  lemma Utf8IsForm(n: nat)
    requires n < 0x110000
    ensures IsForm(Utf8(n), n)
  {
    hide Bits;
    if n < 0x80 {
      BitsOne(n);
    } else if n < 0x800 {
      BitsTwo(0xC0 + n / 0x40, 0x80 + n % 0x40);
    } else if n < 0x10000 {
      FormThree(n);
    } else {
      FormFour(n);
    }
  }

  /** So different code points have different forms. */
  lemma FormsDiffer(m: nat, n: nat)
    requires m < 0x110000 && n < 0x110000 && Utf8(m) == Utf8(n)
    ensures m == n
  {
    Utf8IsForm(m);
    Utf8IsForm(n);
  }

  // ---------- escapes

  /** b is a hexadecimal digit, of either case, that stands for d. */
  predicate IsDigitFor(b: byte, d: nat) {
    if d < 10 then b == 48 + d else d < 16 && (b == 55 + d || b == 87 + d)
  }

  /** h is n in four hexadecimal digits. */
  predicate IsHexFor(h: Text, n: nat) {
    && |h| == 4 && n < 0x10000
    && IsDigitFor(h[0], n / 0x1000) && IsDigitFor(h[1], n / 0x100 % 0x10)
    && IsDigitFor(h[2], n / 0x10 % 0x10) && IsDigitFor(h[3], n % 0x10)
  }

  function Escaped(h: Text): (t: Text) {
    [BACKSLASH, 117] + h
  }

  /** What comes before what the rest of the text gives. */
  function Before(s: Text, r: Parsed<Text>): (p: Parsed<Text>) {
    match r
    case Ok(t, rest) => Ok(s + t, rest)
    case Fail => Fail
    case Undefined => Undefined
  }

  lemma DigitRead(b: byte, d: nat)
    requires d < 16 && IsDigitFor(b, d)
    ensures IsHex(b) && HexValue(b) == d
  {
  }

  lemma FourDigits(n: nat)
    requires n < 0x10000
    ensures n == ((n / 0x1000 * 16 + n / 0x100 % 0x10) * 16 + n / 0x10 % 0x10) * 16 + n % 0x10 && n / 0x1000 < 16
  {
  }

  lemma CodeRead(h: Text, n: nat, rest: Text)
    requires IsHexFor(h, n)
    ensures var t := Escaped(h) + rest; IsUnicode(t) && CodeOf(t) == n && t[6..] == rest
  {
    hide IsHex, HexValue, IsDigitFor;
    var t := Escaped(h) + rest;
    assert t[2] == h[0] && t[3] == h[1] && t[4] == h[2] && t[5] == h[3];
    FourDigits(n);
    DigitRead(h[0], n / 0x1000);
    DigitRead(h[1], n / 0x100 % 0x10);
    DigitRead(h[2], n / 0x10 % 0x10);
    DigitRead(h[3], n % 0x10);
  }

  /** One unfolding of Unescape at an escape. */
  lemma PieceRead(t: Text, out: Text, k: nat)
    requires t != [] && t[0] == BACKSLASH && UnescapeOne(t) == Piece(out, k)
    ensures k <= |t| && Unescape(t) == Before(out, Unescape(t[k..]))
  {
    hide UnescapeOne;
  }

  predicate HighSurrogate(n: nat) {
    0xD800 <= n <= 0xDBFF
  }

  predicate LowSurrogate(n: nat) {
    0xDC00 <= n <= 0xDFFF
  }

  /** An escaped code point of the first plane is read as its UTF-8 form; 0 and a low surrogate give nothing. */
  lemma UnicodeRead(h: Text, n: nat, rest: Text)
    requires IsHexFor(h, n) && !HighSurrogate(n)
    ensures Unescape(Escaped(h) + rest) == Before(if n == 0 || LowSurrogate(n) then [] else Utf8(n), Unescape(rest))
  {
    hide CodeOf, IsUnicode, Utf8, Unescape;
    var t := Escaped(h) + rest;
    CodeRead(h, n, rest);
    PieceRead(t, if n == 0 || LowSurrogate(n) then [] else Utf8(n), 6);
  }

  /** A high surrogate with no escape after it gives nothing. */
  lemma LoneRead(h: Text, n: nat, rest: Text)
    requires IsHexFor(h, n) && HighSurrogate(n) && (|rest| < 2 || rest[0] != BACKSLASH || rest[1] != 117)
    ensures Unescape(Escaped(h) + rest) == Before([], Unescape(rest))
  {
    hide CodeOf, IsUnicode, Utf8, Unescape, IsHexFor;
    CodeRead(h, n, rest);
    HexLength(h, n);
    PieceRead(Escaped(h) + rest, [], 6);
  }

  lemma HexLength(h: Text, n: nat)
    requires IsHexFor(h, n)
    ensures |h| == 4
  {
  }

  /** With an escape after it that is no low surrogate it takes that one with it. */
  lemma UnpairedRead(h: Text, h': Text, n: nat, n': nat, rest: Text)
    requires IsHexFor(h, n) && HighSurrogate(n) && IsHexFor(h', n') && !LowSurrogate(n')
    ensures Unescape(Escaped(h) + (Escaped(h') + rest)) == Before([], Unescape(rest))
  {
    hide CodeOf, IsUnicode, Utf8, Unescape, IsHexFor, Combine;
    var t := Escaped(h) + (Escaped(h') + rest);
    CodeRead(h, n, Escaped(h') + rest);
    CodeRead(h', n', rest);
    HexLength(h, n);
    HexLength(h', n');
    assert t[6] == BACKSLASH && t[7] == 117;
    PieceRead(t, [], 12);
    assert t[12..] == t[6..][6..];
  }

  /** The code point that a surrogate pair for n is read as: the code sets the bit of 0x10000 where it should add
      0x10000. */
  function PairPoint(n: nat): (p: nat)
    requires 0x10000 <= n < 0x110000
    ensures p < 0x110000
  {
    if n / 0x10000 % 2 == 1 then n else n - 0x10000
  }

  lemma CombineIs(n: nat)
    requires 0x10000 <= n < 0x110000
    ensures Combine(0xD800 + (n - 0x10000) / 0x400, 0xDC00 + (n - 0x10000) % 0x400) == PairPoint(n)
  {
    var v := n - 0x10000;
    assert (0xD800 + v / 0x400) % 0x400 == v / 0x400;
    assert (0xDC00 + v % 0x400) % 0x400 == v % 0x400;
    assert v / 0x400 * 0x400 + v % 0x400 == v;
    assert n / 0x10000 == v / 0x10000 + 1;
  }

  lemma PairRead(h: Text, h': Text, n: nat, rest: Text)
    requires 0x10000 <= n < 0x110000
    requires IsHexFor(h, 0xD800 + (n - 0x10000) / 0x400) && IsHexFor(h', 0xDC00 + (n - 0x10000) % 0x400)
    ensures Unescape(Escaped(h) + (Escaped(h') + rest)) == Before(Utf8(PairPoint(n)), Unescape(rest))
  {
    hide CodeOf, IsUnicode, Utf8, Unescape, Combine, PairPoint;
    var v := n - 0x10000;
    var t := Escaped(h) + (Escaped(h') + rest);
    CodeRead(h, 0xD800 + v / 0x400, Escaped(h') + rest);
    CodeRead(h', 0xDC00 + v % 0x400, rest);
    CombineIs(n);
    assert t[6] == BACKSLASH && t[7] == 117;
    PieceRead(t, Utf8(PairPoint(n)), 12);
    assert t[12..] == t[6..][6..];
  }

  /** A surrogate pair is read as the code point it stands for if and only if that is in a plane of odd number. */
  lemma PairRightIff(h: Text, h': Text, n: nat, rest: Text)
    requires 0x10000 <= n < 0x110000 && Unescape(rest).Ok?
    requires IsHexFor(h, 0xD800 + (n - 0x10000) / 0x400) && IsHexFor(h', 0xDC00 + (n - 0x10000) % 0x400)
    ensures Unescape(Escaped(h) + (Escaped(h') + rest)) == Before(Utf8(n), Unescape(rest)) <==> n / 0x10000 % 2 == 1
  {
    hide IsHexFor, Unescape;
    PairRead(h, h', n, rest);
    var s, p := Unescape(rest).value, PairPoint(n);
    if Utf8(p) + s == Utf8(n) + s {
      SameLength(Utf8(p), Utf8(n), s);
      FormsDiffer(p, n);
    }
  }

  lemma SameLength(a: Text, b: Text, s: Text)
    requires a + s == b + s
    ensures a == b
  {
    assert |a| == |b|;
    assert a == (a + s)[..|a|] && b == (b + s)[..|b|];
  }

  /** The short escapes. */
  lemma ShortRead(c: char, b: byte, rest: Text)
    requires (c, b) in {('"', 34), ('\\', 92), ('/', 47), ('b', 8), ('f', 12), ('n', 10), ('r', 13), ('t', 9)}
    ensures Unescape([BACKSLASH, c as int] + rest) == Before([b], Unescape(rest))
  {
    hide Unescape;
    var t := [BACKSLASH, c as int] + rest;
    PieceRead(t, [b], 2);
    assert t[2..] == rest;
  }

  /** Every other byte stands for itself. */
  lemma PlainRead(b: byte, rest: Text)
    requires b != 0 && b != QUOTE && b != BACKSLASH
    ensures Unescape([b] + rest) == Before([b], Unescape(rest))
  {
    assert ([b] + rest)[1..] == rest;
  }

  // ---------- words

  function Ascii(s: string): (t: Text)
    requires forall i :: 0 <= i < |s| ==> s[i] < 128 as char
    ensures |t| == |s| && forall i :: 0 <= i < |t| ==> t[i] == s[i] as int
  {
    seq(|s|, i requires 0 <= i < |s| => s[i] as int)
  }

  lemma WordsRead(fp: Arith, rest: Text)
    ensures Parse(fp, Ascii("null") + rest) == Ok(Null, rest)
    ensures Parse(fp, Ascii("true") + rest) == Ok(True, rest)
    ensures Parse(fp, Ascii("false") + rest) == Ok(False, rest)
  {
    WordRead(fp, "null", rest);
    WordRead(fp, "true", rest);
    WordRead(fp, "false", rest);
  }

  lemma WordRead(fp: Arith, w: string, rest: Text)
    requires w == "null" || w == "true" || w == "false"
    ensures Parse(fp, Ascii(w) + rest) == Ok(if w == "null" then Null else if w == "true" then True else False, rest)
  {
    hide ParseItems, ParseMembers, ParseString, ParseNumber;
    var t := Ascii(w) + rest;
    assert t[..|w|] == Ascii(w) && t[|w|..] == rest;
    assert Ascii("null") == [110, 117, 108, 108] && Ascii("true") == [116, 114, 117, 101];
    assert Ascii("false") == [102, 97, 108, 115, 101];
    assert |t| >= 4 && t[0] == w[0] as int;
    if StartsWith(t, [110, 117, 108, 108]) {
      assert t[..4][0] == 110;
    }
    if StartsWith(t, [102, 97, 108, 115, 101]) {
      assert t[..5][0] == 102;
    }
  }
}
