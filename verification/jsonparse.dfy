/** parse_value, parse_array, parse_object and parse_number of cJSON.c as the loops they are. A text in which an
    escape is broken off or an exponent is no int is outside of these methods. */
module JsonParse {
  import opened Basics
  import opened Doubles
  import opened JsonText
  import JsonBuffers

  method SkipBlanks(t: Text) returns (r: Text)
    ensures r == Skip(t)
  {
    var i := 0;
    assert t[0..] == t;
    while i < |t| && 0 < t[i] <= 32
      invariant 0 <= i <= |t| && Skip(t[i..]) == Skip(t)
    {
      assert t[i..][1..] == t[i + 1..];
      i := i + 1;
    }
    r := t[i..];
  }

  // ---------- numbers

  method ReadDigits(fp: Arith, t: Text, n: Double) returns (m: Double, count: nat, rest: Text)
    ensures (m, count, rest) == TakeDigits(fp, t, n, 0)
  {
    m, count := n, 0;
    var i := 0;
    assert t[0..] == t;
    while i < |t| && IsDigit(t[i])
      invariant 0 <= i <= |t| && TakeDigits(fp, t[i..], m, count) == TakeDigits(fp, t, n, 0)
    {
      assert t[i..][1..] == t[i + 1..];
      m := Add(fp, Mul(fp, m, Finite(10.0)), Finite((t[i] - 48) as real));
      count := count + 1;
      i := i + 1;
    }
    rest := t[i..];
  }

  /** The int that the exponent is gathered in does not overflow. */
  method ReadExponent(t: Text) returns (e: int, rest: Text)
    requires !ParseExponent(t).Undefined?
    ensures Ok(e, rest) == ParseExponent(t)
  {
    e, rest := 0, t;
    if At(t) == 101 || At(t) == 69 {
      var minus := At(t[1..]) == MINUS;
      rest := if At(t[1..]) == 43 || minus then t[2..] else t[1..];
      var u, i := rest, 0;
      assert u[0..] == u;
      while i < |u| && IsDigit(u[i])
        invariant 0 <= i <= |u| && 0 <= e <= INT_MAX && TakeExponent(u[i..], e) == TakeExponent(u, 0)
      {
        assert u[i..][1..] == u[i + 1..];
        e := e * 10 + (u[i] - 48);
        i := i + 1;
      }
      rest := u[i..];
      e := if minus then 0 - e else e;
    }
  }

  method ReadNumber(fp: Arith, t: Text) returns (n: int, d: Double, rest: Text)
    requires !ParseNumber(fp, t).Undefined?
    ensures Ok(d, rest) == ParseNumber(fp, t) && n == ToInt(fp, d)
  {
    hide TakeDigits, ParseExponent, Mul;
    var sign, m, digits, scale := Finite(1.0), Finite(0.0), 0, 0;
    rest := t;
    if At(rest) == MINUS {
      sign, rest := Finite(-1.0), rest[1..];
    }
    if At(rest) == 48 {
      rest := rest[1..];
    }
    if 49 <= At(rest) <= 57 {
      m, digits, rest := ReadDigits(fp, rest, m);
    }
    if At(rest) == 46 && |rest| > 1 && IsDigit(rest[1]) {
      m, scale, rest := ReadDigits(fp, rest[1..], m);
    }
    var e: int;
    e, rest := ReadExponent(rest);
    d := Mul(fp, Mul(fp, sign, m), Ten(fp, e - scale));
    n := ToInt(fp, d);
  }

  // ---------- arrays

  function ItemsOf(vs: seq<Json>, tail: Items): (items: Items)
    decreases |vs|
  {
    if vs == [] then tail else Item(vs[0], ItemsOf(vs[1..], tail))
  }

  /** The result of parsing on from where the values `vs` have been read. */
  function AfterItems(vs: seq<Json>, r: Parsed<Items>): (p: Parsed<Items>) {
    match r
    case Ok(items, rest) => Ok(ItemsOf(vs, items), rest)
    case Fail => Fail
    case Undefined => Undefined
  }

  /** What follows an item: a comma and more items, or the closing bracket. */
  function MoreItems(fp: Arith, t: Text): (r: Parsed<Items>) {
    if At(t) == COMMA then ParseItems(fp, t[1..])
    else if At(t) == RBRACKET then Ok(NoItems, t[1..])
    else Fail
  }

  lemma {:induction false} ItemsSnoc(vs: seq<Json>, v: Json, tail: Items)
    ensures ItemsOf(vs + [v], tail) == ItemsOf(vs, Item(v, tail))
    decreases |vs|
  {
    if vs == [] {
      assert [v][1..] == [];
    } else {
      assert (vs + [v])[1..] == vs[1..] + [v];
      ItemsSnoc(vs[1..], v, tail);
    }
  }

  /** One more value read leaves the whole result as it was. */
  lemma ItemRead(fp: Arith, vs: seq<Json>, t: Text)
    ensures var p := Parse(fp, Skip(t));
            && (p.Fail? ==> AfterItems(vs, ParseItems(fp, t)) == Fail)
            && (p.Undefined? ==> AfterItems(vs, ParseItems(fp, t)) == Undefined)
            && (p.Ok? ==> AfterItems(vs, ParseItems(fp, t)) == AfterItems(vs + [p.value], MoreItems(fp, Skip(p.rest))))
  {
    hide Parse, Skip;
    var p := Parse(fp, Skip(t));
    if p.Ok? {
      var more := MoreItems(fp, Skip(p.rest));
      if more.Ok? {
        ItemsSnoc(vs, p.value, more.value);
      }
    }
  }

  /** parse_array after the opening bracket, where the array is not empty. */
  method ReadItems(fp: Arith, t: Text) returns (r: Parsed<Items>)
    requires !ParseItems(fp, t).Undefined?
    ensures r == ParseItems(fp, t)
    decreases |t|, 2
  {
    hide Parse, ParseItems, Skip, ItemsOf;
    ItemsNone(ParseItems(fp, t));
    ItemRead(fp, [], t);
    var first := SkipBlanks(t);
    var p := ReadValue(fp, first);
    if p.Fail? {
      return Fail;
    }
    var vs := [p.value];
    assert [] + [p.value] == vs;
    var at := SkipBlanks(p.rest);
    while At(at) == COMMA
      invariant |at| < |t| && AfterItems(vs, MoreItems(fp, at)) == ParseItems(fp, t)
      decreases |at|
    {
      ItemRead(fp, vs, at[1..]);
      var next := SkipBlanks(at[1..]);
      p := ReadValue(fp, next);
      if p.Fail? {
        return Fail;
      }
      vs := vs + [p.value];
      at := SkipBlanks(p.rest);
    }
    if At(at) == RBRACKET {
      r := Ok(ItemsOf(vs, NoItems), at[1..]);
    } else {
      r := Fail;
    }
  }

  lemma ItemsNone(r: Parsed<Items>)
    ensures AfterItems([], r) == r
  {
  }

  // ---------- objects

  datatype Pair = Pair(name: Text, value: Json)

  function MembersOf(ps: seq<Pair>, tail: Members): (members: Members)
    decreases |ps|
  {
    if ps == [] then tail else Member(ps[0].name, ps[0].value, MembersOf(ps[1..], tail))
  }

  function AfterMembers(ps: seq<Pair>, r: Parsed<Members>): (p: Parsed<Members>) {
    match r
    case Ok(members, rest) => Ok(MembersOf(ps, members), rest)
    case Fail => Fail
    case Undefined => Undefined
  }

  function MoreMembers(fp: Arith, t: Text): (r: Parsed<Members>) {
    if At(t) == COMMA then ParseMembers(fp, t[1..])
    else if At(t) == RBRACE then Ok(NoMembers, t[1..])
    else Fail
  }

  lemma {:induction false} MembersSnoc(ps: seq<Pair>, p: Pair, tail: Members)
    ensures MembersOf(ps + [p], tail) == MembersOf(ps, Member(p.name, p.value, tail))
    decreases |ps|
  {
    if ps == [] {
      assert [p][1..] == [];
    } else {
      assert (ps + [p])[1..] == ps[1..] + [p];
      MembersSnoc(ps[1..], p, tail);
    }
  }

  /** A name, a colon and a value. */
  function ParsePair(fp: Arith, t: Text): (r: Parsed<Pair>)
    ensures r.Ok? ==> |r.rest| < |t|
  {
    match ParseString(Skip(t))
    case Fail => Fail
    case Undefined => Undefined
    case Ok(name, rest) =>
      var t1 := Skip(rest);
      if At(t1) != COLON then Fail
      else
        match Parse(fp, Skip(t1[1..]))
        case Fail => Fail
        case Undefined => Undefined
        case Ok(v, rest') => Ok(Pair(name, v), rest')
  }

  lemma MemberRead(fp: Arith, ps: seq<Pair>, t: Text)
    ensures var p := ParsePair(fp, t);
            && (p.Fail? ==> AfterMembers(ps, ParseMembers(fp, t)) == Fail)
            && (p.Undefined? ==> AfterMembers(ps, ParseMembers(fp, t)) == Undefined)
            && (p.Ok? ==> AfterMembers(ps, ParseMembers(fp, t)) == AfterMembers(ps + [p.value], MoreMembers(fp, Skip(p.rest))))
  {
    hide Parse, Skip, ParseString;
    var p := ParsePair(fp, t);
    if p.Ok? {
      var more := MoreMembers(fp, Skip(p.rest));
      if more.Ok? {
        MembersSnoc(ps, p.value, more.value);
      }
    }
  }

  method ReadPair(fp: Arith, t: Text) returns (r: Parsed<Pair>)
    requires !ParsePair(fp, t).Undefined?
    ensures r == ParsePair(fp, t)
    decreases |t|, 2
  {
    hide Parse, ParseString, Skip;
    var first := SkipBlanks(t);
    var s := JsonBuffers.ParseStringItem(first);
    if s.Fail? {
      return Fail;
    }
    var at := SkipBlanks(s.rest);
    if At(at) != COLON {
      return Fail;
    }
    at := SkipBlanks(at[1..]);
    var v := ReadValue(fp, at);
    if v.Fail? {
      return Fail;
    }
    r := Ok(Pair(s.value, v.value), v.rest);
  }

  /** parse_object after the opening brace, where the object is not empty. */
  method ReadMembers(fp: Arith, t: Text) returns (r: Parsed<Members>)
    requires !ParseMembers(fp, t).Undefined?
    ensures r == ParseMembers(fp, t)
    decreases |t|, 3
  {
    hide ParsePair, ParseMembers, Skip, MembersOf;
    MembersNone(ParseMembers(fp, t));
    MemberRead(fp, [], t);
    var p := ReadPair(fp, t);
    if p.Fail? {
      return Fail;
    }
    var ps := [p.value];
    assert [] + [p.value] == ps;
    var at := SkipBlanks(p.rest);
    while At(at) == COMMA
      invariant |at| < |t| && AfterMembers(ps, MoreMembers(fp, at)) == ParseMembers(fp, t)
      decreases |at|
    {
      MemberRead(fp, ps, at[1..]);
      p := ReadPair(fp, at[1..]);
      if p.Fail? {
        return Fail;
      }
      ps := ps + [p.value];
      at := SkipBlanks(p.rest);
    }
    if At(at) == RBRACE {
      r := Ok(MembersOf(ps, NoMembers), at[1..]);
    } else {
      r := Fail;
    }
  }

  lemma MembersNone(r: Parsed<Members>)
    ensures AfterMembers([], r) == r
  {
  }

  // ---------- values

  method ReadValue(fp: Arith, t: Text) returns (r: Parsed<Json>)
    requires !Parse(fp, t).Undefined?
    ensures r == Parse(fp, t)
    decreases |t|, 1
  {
    if StartsWith(t, [110, 117, 108, 108]) {
      r := Ok(Null, t[4..]);
    } else if StartsWith(t, [102, 97, 108, 115, 101]) {
      r := Ok(False, t[5..]);
    } else if StartsWith(t, [116, 114, 117, 101]) {
      r := Ok(True, t[4..]);
    } else if At(t) == QUOTE {
      var s := JsonBuffers.ParseStringItem(t);
      r := if s.Ok? then Ok(String(s.value), s.rest) else Fail;
    } else if At(t) == MINUS || IsDigit(At(t)) {
      var n, d, rest := ReadNumber(fp, t);
      r := Ok(Number(n, d), rest);
    } else if At(t) == LBRACKET {
      r := ReadArray(fp, t);
    } else if At(t) == LBRACE {
      r := ReadObject(fp, t);
    } else {
      r := Fail;
    }
  }

  method ReadArray(fp: Arith, t: Text) returns (r: Parsed<Json>)
    requires At(t) == LBRACKET && !Parse(fp, t).Undefined?
    ensures r == Parse(fp, t)
    decreases |t|, 0
  {
    var at := SkipBlanks(t[1..]);
    if At(at) == RBRACKET {
      r := Ok(Array(NoItems), at[1..]);
    } else {
      var items := ReadItems(fp, at);
      r := if items.Ok? then Ok(Array(items.value), items.rest) else Fail;
    }
  }

  method ReadObject(fp: Arith, t: Text) returns (r: Parsed<Json>)
    requires At(t) == LBRACE && !Parse(fp, t).Undefined?
    ensures r == Parse(fp, t)
    decreases |t|, 0
  {
    var at := SkipBlanks(t[1..]);
    if At(at) == RBRACE {
      r := Ok(Object(NoMembers), at[1..]);
    } else {
      var members := ReadMembers(fp, at);
      r := if members.Ok? then Ok(Object(members.value), members.rest) else Fail;
    }
  }
}
