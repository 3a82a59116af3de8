/** The functions of cJSON that first compute a length, allocate that much, and then write: every write is inside
    the allocated buffer, and what is written is the text of JsonText. */
module JsonBuffers {
  import opened Basics
  import opened JsonText

  /** strcpy: the string and its terminator. */
  method StrCpy(out: array<byte>, p: nat, s: Text)
    requires p + |s| < out.Length
    modifies out
    ensures out[..p] == old(out[..p]) && out[p..p + |s|] == s
  {
    for i := 0 to |s|
      invariant out[..p] == old(out[..p]) && out[p..p + i] == s[..i]
    {
      out[p + i] := s[i];
      assert out[p..p + i + 1] == out[p..p + i] + [s[i]] == s[..i + 1];
    }
    assert s[..|s|] == s;
    out[p + |s|] := 0;
    assert out[p..p + |s|] == s;
  }

  /** strcpy after what is written already. */
  method Append(out: array<byte>, p: nat, s: Text, ghost before: Text) returns (p': nat)
    requires p + |s| < out.Length && out[..p] == before
    modifies out
    ensures p' == p + |s| && out[..p'] == before + s
  {
    StrCpy(out, p, s);
    p' := p + |s|;
    assert out[..p'] == out[..p] + out[p..p'];
  }

  method Put(out: array<byte>, p: nat, b: byte, ghost before: Text) returns (p': nat)
    requires p < out.Length && out[..p] == before
    modifies out
    ensures p' == p + 1 && out[..p'] == before + [b]
  {
    out[p] := b;
    p' := p + 1;
    assert out[..p'] == out[..p] + [out[p]];
  }

  /** The terminator after what is written. */
  method Terminate(out: array<byte>, p: nat, ghost before: Text)
    requires p < out.Length && out[..p] == before
    modifies out
    ensures out[p] == 0 && out[..p] == before
  {
    out[p] := 0;
  }

  lemma {:induction false} EscapeAllConcat(a: Text, b: Text)
    ensures EscapeAll(a + b) == EscapeAll(a) + EscapeAll(b)
    decreases |a|
  {
    hide Escape;
    if a == [] {
      assert a + b == b;
    } else {
      assert (a + b)[1..] == a[1..] + b;
      EscapeAllConcat(a[1..], b);
    }
  }

  lemma EscapeAllStep(s: Text, i: nat)
    requires i < |s|
    ensures EscapeAll(s[..i + 1]) == EscapeAll(s[..i]) + Escape(s[i])
    ensures |EscapeAll(s[..i + 1])| <= |EscapeAll(s)|
  {
    hide Escape;
    assert s[..i + 1] == s[..i] + [s[i]];
    EscapeAllConcat(s[..i], [s[i]]);
    assert EscapeAll([s[i]]) == Escape(s[i]) + EscapeAll([]) == Escape(s[i]);
    assert s == s[..i + 1] + s[i + 1..];
    EscapeAllConcat(s[..i + 1], s[i + 1..]);
  }

  /** The first pass of print_string_ptr. */
  method EscapedLength(str: Text) returns (len: nat)
    requires 0 !in str
    ensures len == |EscapeAll(str)|
  {
    hide EscapeAll;
    EscapeNothing();
    len := 0;
    assert str[..0] == [];
    for i := 0 to |str|
      invariant len == |EscapeAll(str[..i])|
    {
      EscapeAllStep(str, i);
      var token := str[i];
      len := len + 1;
      if token in [QUOTE, BACKSLASH, 8, 12, 10, 13, 9] {
        len := len + 1;
      } else if token < 32 {
        len := len + 5;
      }
    }
    assert str[..|str|] == str;
  }

  lemma EscapeNothing()
    ensures EscapeAll([]) == []
  {
  }

  /** The byte that print_string_ptr writes after the backslash; 0 for one that needs the four-digit form. */
  function Letter(token: byte): (b: byte) {
    if token == BACKSLASH || token == QUOTE then token
    else if token == 8 then 98
    else if token == 12 then 102
    else if token == 10 then 110
    else if token == 13 then 114
    else if token == 9 then 116
    else 0
  }

  lemma EscapeByLetter(b: byte)
    requires !(b > 31 && b != QUOTE && b != BACKSLASH)
    ensures Letter(b) != 0 ==> Escape(b) == [BACKSLASH, Letter(b)]
    ensures Letter(b) == 0 ==> Escape(b) == [BACKSLASH] + [117, 48, 48, HexDigit(b / 16), HexDigit(b % 16)]
  {
  }

  /** print_string_ptr */
  method PrintStringPtr(str: Text) returns (s: Text)
    requires 0 !in str
    ensures s == PrintString(str)
  {
    hide EscapeAll, Escape;
    EscapeNothing();
    var len := EscapedLength(str);
    var out := new byte[len + 3];
    var p := Put(out, 0, QUOTE, []);
    assert str[..0] == [];
    for i := 0 to |str|
      invariant p == 1 + |EscapeAll(str[..i])| <= len + 1 && out[..p] == [QUOTE] + EscapeAll(str[..i])
    {
      EscapeAllStep(str, i);
      ghost var before := [QUOTE] + EscapeAll(str[..i]);
      var b := str[i];
      if b > 31 && b != QUOTE && b != BACKSLASH {
        PlainEscape(b);
        p := Put(out, p, b, before);
      } else {
        EscapeByLetter(b);
        p := Put(out, p, BACKSLASH, before);
        if Letter(b) != 0 {
          p := Put(out, p, Letter(b), before + [BACKSLASH]);
        } else {
          // sprintf of "u%04x" also writes a terminator
          p := Append(out, p, [117, 48, 48, HexDigit(b / 16), HexDigit(b % 16)], before + [BACKSLASH]);
        }
      }
      assert out[..p] == before + Escape(b);
      assert before + Escape(b) == [QUOTE] + EscapeAll(str[..i + 1]);
    }
    assert str[..|str|] == str;
    p := Put(out, p, QUOTE, [QUOTE] + EscapeAll(str));
    Terminate(out, p, [QUOTE] + EscapeAll(str) + [QUOTE]);
    s := out[..p];
  }

  lemma PlainEscape(b: byte)
    requires b > 31 && b != QUOTE && b != BACKSLASH
    ensures Escape(b) == [b]
  {
  }

  // ---------- parse_string

  predicate Ends(t: Text) {
    t == [] || t[0] == 0 || t[0] == QUOTE
  }

  /** What the first pass of parse_string counts: a backslash and the byte after it are one. */
  function Counted(t: Text): (n: nat)
    decreases |t|
  {
    if Ends(t) then 0
    else if t[0] == BACKSLASH && |t| >= 2 then 1 + Counted(t[2..])
    else 1 + Counted(t[1..])
  }

  /** The first pass does not step over the end of the text. */
  predicate Scannable(t: Text)
    decreases |t|
  {
    Ends(t) || (if t[0] == BACKSLASH then |t| >= 2 && t[1] != 0 && Scannable(t[2..]) else Scannable(t[1..]))
  }

  lemma OnePlain(t: Text)
    requires !Ends(t) && t[0] != BACKSLASH
    ensures Counted(t) == 1 + Counted(t[1..]) && (Scannable(t) <==> Scannable(t[1..]))
  {
  }

  lemma OneEscape(t: Text)
    requires !Ends(t) && t[0] == BACKSLASH && |t| >= 2 && t[1] != 0
    ensures Counted(t) == 1 + Counted(t[2..]) && (Scannable(t) <==> Scannable(t[2..]))
  {
  }

  /** The first pass over a complete four-digit escape. */
  lemma CountUnicode(t: Text)
    requires IsUnicode(t)
    ensures Counted(t) == 5 + Counted(t[6..]) && (Scannable(t) <==> Scannable(t[6..]))
  {
    assert t[2..][1..] == t[3..] && t[3..][1..] == t[4..] && t[4..][1..] == t[5..] && t[5..][1..] == t[6..];
    OnePlain(t[2..]);
    OnePlain(t[3..]);
    OnePlain(t[4..]);
    OnePlain(t[5..]);
  }

  /** What one step of the second pass writes is no more than what the first pass counted for it. */
  lemma PieceCounted(t: Text)
    requires !Ends(t) && UnescapeOne(t).Piece?
    ensures var p := UnescapeOne(t); Counted(t) >= |p.out| + Counted(t[p.taken..]) && (Scannable(t) <==> Scannable(t[p.taken..]))
  {
    hide Utf8, CodeOf, Counted, Scannable;
    if t[0] != BACKSLASH {
      OnePlain(t);
    } else if t[1] != 117 {
      OneEscape(t);
    } else {
      CountUnicode(t);
      if UnescapeOne(t).taken == 12 {
        CountUnicode(t[6..]);
        assert t[6..][6..] == t[12..];
      }
    }
  }

  /** The first-pass length is enough for the second pass, on every string with complete escapes. */
  lemma {:induction false} CountEnough(t: Text)
    requires Unescape(t).Ok?
    ensures |Unescape(t).value| <= Counted(t) && Scannable(t)
    decreases |t|
  {
    hide UnescapeOne, Counted, Scannable;
    if Ends(t) {
      EndsCounted(t);
    } else {
      PieceCounted(t);
      CountEnough(t[UnescapeOne(t).taken..]);
    }
  }

  lemma EndsCounted(t: Text)
    requires Ends(t)
    ensures Counted(t) == 0 && Scannable(t)
  {
  }

  method CountChars(t: Text) returns (len: nat)
    requires Scannable(t)
    ensures len == Counted(t)
  {
    len := 0;
    var i := 0;
    assert t[0..] == t;
    while !Ends(t[i..])
      invariant i <= |t| && Scannable(t[i..]) && len + Counted(t[i..]) == Counted(t)
      decreases |t| - i
    {
      assert t[i..][1..] == t[i + 1..] && (|t| - i >= 2 ==> t[i..][2..] == t[i + 2..]);
      len := len + 1;
      if t[i] == BACKSLASH {
        i := i + 1;
      }
      i := i + 1;
    }
  }

  /** The continuation byte that parse_string makes of the six low bits. */
  function LowByte(uc: nat): (b: byte) {
    0x80 + uc % 0x40
  }

  /** firstByteMark */
  function Mark(len: nat): (m: byte) {
    if len == 2 then 0xC0 else if len == 3 then 0xE0 else if len == 4 then 0xF0 else 0
  }

  function Utf8Length(uc: nat): (n: nat) {
    if uc < 0x80 then 1 else if uc < 0x800 then 2 else if uc < 0x10000 then 3 else 4
  }

  /** Shifting by six bits at a time gives the bytes of the UTF-8 form from the last to the first. */
  lemma Utf8ByShifts(uc: nat)
    requires uc < 0x110000
    ensures var len := Utf8Length(uc);
            var u1 := uc / 0x40; var u2 := u1 / 0x40; var u3 := u2 / 0x40;
            var top := if len == 1 then uc else if len == 2 then u1 else if len == 3 then u2 else u3;
            && top + Mark(len) < 256
            && Utf8(uc) == [top + Mark(len)] + (if len == 4 then [LowByte(u2)] else []) +
                           (if len >= 3 then [LowByte(u1)] else []) + (if len >= 2 then [LowByte(uc)] else [])
  {
    assert uc / 0x40 / 0x40 == uc / 0x1000 && uc / 0x1000 / 0x40 == uc / 0x40000;
  }

  /** The bytes of a code point are written from the last to the first. */
  method PutUtf8(out: array<byte>, p: nat, uc: nat, ghost before: Text) returns (p': nat)
    requires uc < 0x110000 && p + |Utf8(uc)| <= out.Length && out[..p] == before
    modifies out
    ensures p' == p + |Utf8(uc)| && out[..p'] == before + Utf8(uc)
  {
    hide Utf8, LowByte, Mark;
    Utf8ByShifts(uc);
    var len := Utf8Length(uc);
    p' := p + len;
    var rest, q := uc, p';
    if len >= 4 {
      q := q - 1;
      out[q] := LowByte(rest);
      rest := rest / 0x40;
    }
    if len >= 3 {
      q := q - 1;
      out[q] := LowByte(rest);
      rest := rest / 0x40;
    }
    if len >= 2 {
      q := q - 1;
      out[q] := LowByte(rest);
      rest := rest / 0x40;
    }
    out[q - 1] := rest + Mark(len);
    assert out[p..p'] == Utf8(uc);
    assert out[..p'] == out[..p] + out[p..p'];
  }

  /** One turn of the second loop of parse_string, with t the text from the pointer on. */
  method WritePiece(out: array<byte>, p: nat, t: Text, ghost before: Text) returns (p': nat, k: nat)
    requires !Ends(t) && UnescapeOne(t).Piece? && p + |UnescapeOne(t).out| <= out.Length && out[..p] == before
    modifies out
    ensures k == UnescapeOne(t).taken && p' == p + |UnescapeOne(t).out| && out[..p'] == before + UnescapeOne(t).out
  {
    hide Utf8, CodeOf;
    p', k := p, 2;
    if t[0] != BACKSLASH {
      p' := Put(out, p, t[0], before);
      k := 1;
    } else if t[1] == 98 {
      p' := Put(out, p, 8, before);
    } else if t[1] == 102 {
      p' := Put(out, p, 12, before);
    } else if t[1] == 110 {
      p' := Put(out, p, 10, before);
    } else if t[1] == 114 {
      p' := Put(out, p, 13, before);
    } else if t[1] == 116 {
      p' := Put(out, p, 9, before);
    } else if t[1] == 117 {
      var uc := CodeOf(t);
      k := 6;
      if 0xDC00 <= uc <= 0xDFFF || uc == 0 {
      } else if 0xD800 <= uc <= 0xDBFF {
        if |t| >= 8 && t[6] == BACKSLASH && t[7] == 117 {
          var uc2 := CodeOf(t[6..]);
          k := 12;
          if 0xDC00 <= uc2 <= 0xDFFF {
            p' := PutUtf8(out, p, Combine(uc, uc2), before);
          }
        }
      } else {
        p' := PutUtf8(out, p, uc, before);
      }
    } else {
      p' := Put(out, p, t[1], before);
    }
  }

  /** parse_string, on a text in which every escape is complete. */
  method ParseStringItem(t: Text) returns (r: Parsed<Text>)
    requires !ParseString(t).Undefined?
    ensures r == ParseString(t)
  {
    hide UnescapeOne, Counted, Unescape, Scannable;
    if At(t) != QUOTE {
      return Fail;
    }
    NeverFails(t[1..]);
    CountEnough(t[1..]);
    var len := CountChars(t[1..]);
    var out := new byte[len + 1];
    var i, p := 1, 0;
    ghost var value := Unescape(t[1..]).value;
    assert out[..0] == [] && [] + value == value;
    while !Ends(t[i..])
      invariant 1 <= i <= |t| && 0 <= p <= |value| && p <= len && p + Counted(t[i..]) <= len
      invariant Unescape(t[i..]).Ok? && Unescape(t[i..]).rest == Unescape(t[1..]).rest
      invariant out[..p] == value[..p] && value[p..] == Unescape(t[i..]).value
      decreases |t| - i
    {
      var u := t[i..];
      UnescapeStep(u);
      PieceCounted(u);
      ghost var piece := UnescapeOne(u).out;
      ghost var before := value[..p];
      assert Counted(u[UnescapeOne(u).taken..]) >= 0;
      var q, k := WritePiece(out, p, u, before);
      assert u[k..] == t[i + k..];
      Split(value, p, piece, Unescape(u[k..]).value);
      p, i := q, i + k;
    }
    EndsCounted(t[i..]);
    UnescapeEnd(t[i..]);
    assert value == value[..p] + value[p..] == out[..p];
    out[p] := 0;
    r := Ok(out[..p], if i < |t| && t[i] == QUOTE then t[i + 1..] else t[i..]);
    assert i < |t| ==> t[i..][1..] == t[i + 1..];
  }

  lemma Split(value: Text, p: nat, piece: Text, rest: Text)
    requires p <= |value| && value[p..] == piece + rest
    ensures p + |piece| <= |value|
    ensures value[..p] + piece == value[..p + |piece|] && value[p + |piece|..] == rest
  {
    assert value == value[..p] + (piece + rest);
  }

  lemma {:induction false} NeverFails(t: Text)
    ensures !Unescape(t).Fail?
    decreases |t|
  {
    hide UnescapeOne;
    if !Ends(t) && UnescapeOne(t).Piece? {
      NeverFails(t[UnescapeOne(t).taken..]);
    }
  }

  lemma UnescapeStep(t: Text)
    requires !Ends(t) && Unescape(t).Ok?
    ensures UnescapeOne(t).Piece?
    ensures var p := UnescapeOne(t);
            var r := Unescape(t[p.taken..]);
            r.Ok? && Unescape(t) == Ok(p.out + r.value, r.rest)
  {
    hide UnescapeOne;
  }

  lemma UnescapeEnd(t: Text)
    requires Ends(t)
    ensures Unescape(t) == Ok([], if t != [] && t[0] == QUOTE then t[1..] else t)
  {
  }
}
