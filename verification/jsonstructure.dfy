/** Arrays and objects as section 2 of RFC 8259 writes them, whoever wrote them: values between commas, in order, with any
    blanks around them. */
module JsonStructure {
  import opened Basics
  import opened Doubles
  import opened JsonText
  import opened JsonRoundTrip
  import opened JsonParse

  /** What may follow a value in an array or object. */
  predicate Follows(rest: Text) {
    At(rest) == COMMA || At(rest) == RBRACKET || At(rest) == RBRACE || 0 < At(rest) <= 32
  }

  /** The text is one of the value v. */
  ghost predicate IsTextOf(fp: Arith, text: Text, v: Json) {
    text != [] && At(text) > 32 && forall rest :: Follows(rest) ==> Parse(fp, text + rest) == Ok(v, rest)
  }

  /** A text with the blanks around it. */
  datatype Padded = Padded(before: Text, core: Text, after: Text)

  ghost predicate BlankAround(p: Padded) {
    AllBlank(p.before) && AllBlank(p.after)
  }

  lemma FollowsBlank(b: Text, c: byte, rest: Text)
    requires AllBlank(b) && (c == COMMA || c == RBRACKET || c == RBRACE)
    ensures Follows(b + ([c] + rest)) && Skip(b + ([c] + rest)) == [c] + rest
  {
    JsonRoundTrip.SkipBlanks(b, [c] + rest);
    if b == [] {
      assert b + ([c] + rest) == [c] + rest;
    }
  }

  lemma SkipTo(b: Text, t: Text)
    requires AllBlank(b) && At(t) > 32
    ensures Skip(b + t) == t
  {
    JsonRoundTrip.SkipBlanks(b, t);
  }

  // ---------- arrays

  /** The items with commas between them and the closing bracket after them. */
  function Listed(ps: seq<Padded>, rest: Text): (t: Text)
    requires ps != []
    decreases |ps|
  {
    var p := ps[0];
    p.before + (p.core + (p.after + (if |ps| == 1 then [RBRACKET] + rest else [COMMA] + Listed(ps[1..], rest))))
  }

  /** One item, given how what follows it is parsed. */
  lemma ItemIn(fp: Arith, p: Padded, v: Json, c: byte, tail: Text)
    requires BlankAround(p) && IsTextOf(fp, p.core, v) && (c == COMMA || c == RBRACKET)
    ensures var t := p.before + (p.core + (p.after + ([c] + tail)));
            && (c == RBRACKET ==> ParseItems(fp, t) == Ok(Item(v, NoItems), tail))
            && (c == COMMA && ParseItems(fp, tail).Ok? ==>
                  ParseItems(fp, t) == Ok(Item(v, ParseItems(fp, tail).value), ParseItems(fp, tail).rest))
  {
    hide Parse, Skip;
    var after := p.after + ([c] + tail);
    FollowsBlank(p.after, c, tail);
    assert At(p.core + after) == At(p.core);
    SkipTo(p.before, p.core + after);
    assert Parse(fp, p.core + after) == Ok(v, after);
    assert ([c] + tail)[1..] == tail;
  }

  lemma {:induction false} ListRead(fp: Arith, ps: seq<Padded>, vs: seq<Json>, rest: Text)
    requires |ps| == |vs| > 0
    requires forall i :: 0 <= i < |ps| ==> BlankAround(ps[i]) && IsTextOf(fp, ps[i].core, vs[i])
    ensures ParseItems(fp, Listed(ps, rest)) == Ok(ItemsOf(vs, NoItems), rest)
    decreases |ps|
  {
    hide ParseItems, IsTextOf, BlankAround;
    if |ps| == 1 {
      ItemIn(fp, ps[0], vs[0], RBRACKET, rest);
      assert vs[1..] == [];
    } else {
      ListRead(fp, ps[1..], vs[1..], rest);
      ItemIn(fp, ps[0], vs[0], COMMA, Listed(ps[1..], rest));
    }
  }

  lemma NotClosing(fp: Arith, text: Text, v: Json)
    requires IsTextOf(fp, text, v)
    ensures At(text) != RBRACKET
  {
    var t := text + [COMMA];
    assert Follows([COMMA]);
    assert Parse(fp, t).Ok?;
    if At(t) == RBRACKET {
      NotWord(t, [110, 117, 108, 108]);
      NotWord(t, [102, 97, 108, 115, 101]);
      NotWord(t, [116, 114, 117, 101]);
    }
  }

  /** parse_array gives the values of its items in the order in which they are written. */
  lemma ArrayInOrder(fp: Arith, ps: seq<Padded>, vs: seq<Json>, rest: Text)
    requires |ps| == |vs| > 0
    requires forall i :: 0 <= i < |ps| ==> BlankAround(ps[i]) && IsTextOf(fp, ps[i].core, vs[i])
    ensures Parse(fp, [LBRACKET] + Listed(ps, rest)) == Ok(Array(ItemsOf(vs, NoItems)), rest)
  {
    hide Parse, ParseItems, Skip;
    var t := [LBRACKET] + Listed(ps, rest);
    var p := ps[0];
    ListRead(fp, ps, vs, rest);
    NotClosing(fp, p.core, vs[0]);
    assert t[1..] == Listed(ps, rest);
    ListedSkip(fp, ps, vs[0], rest);
    Dispatch(fp, t);
  }

  lemma ListedSkip(fp: Arith, ps: seq<Padded>, v: Json, rest: Text)
    requires ps != [] && BlankAround(ps[0]) && IsTextOf(fp, ps[0].core, v)
    ensures var t := Listed(ps, rest); At(Skip(t)) == At(ps[0].core) && ParseItems(fp, Skip(t)) == ParseItems(fp, t)
  {
    hide Parse, Skip;
    var p := ps[0];
    var tail := p.after + (if |ps| == 1 then [RBRACKET] + rest else [COMMA] + Listed(ps[1..], rest));
    SkipTo(p.before, p.core + tail);
    SkipTo([], p.core + tail);
    assert [] + (p.core + tail) == p.core + tail;
  }

  lemma EmptyArray(fp: Arith, blanks: Text, rest: Text)
    requires AllBlank(blanks)
    ensures Parse(fp, [LBRACKET] + (blanks + ([RBRACKET] + rest))) == Ok(Array(NoItems), rest)
  {
    hide Parse;
    var t := [LBRACKET] + (blanks + ([RBRACKET] + rest));
    assert t[1..] == blanks + ([RBRACKET] + rest);
    FollowsBlank(blanks, RBRACKET, rest);
    assert ([RBRACKET] + rest)[1..] == rest;
    Dispatch(fp, t);
  }

  // ---------- objects

  /** The text is a string literal of the name. */
  ghost predicate IsNameText(text: Text, name: Text) {
    text != [] && At(text) == QUOTE && forall rest :: ParseString(text + rest) == Ok(name, rest)
  }

  /** A name and a value, each with the blanks around it. */
  datatype Entry = Entry(name: Padded, value: Padded)

  ghost predicate EntryOk(fp: Arith, e: Entry, name: Text, v: Json) {
    BlankAround(e.name) && BlankAround(e.value) && IsNameText(e.name.core, name) && IsTextOf(fp, e.value.core, v)
  }

  function EntryText(e: Entry, tail: Text): (t: Text) {
    e.name.before + (e.name.core + (e.name.after + ([COLON] + (e.value.before + (e.value.core + (e.value.after + tail))))))
  }

  function Entries(es: seq<Entry>, rest: Text): (t: Text)
    requires es != []
    decreases |es|
  {
    EntryText(es[0], if |es| == 1 then [RBRACE] + rest else [COMMA] + Entries(es[1..], rest))
  }

  lemma EntryIn(fp: Arith, e: Entry, name: Text, v: Json, c: byte, tail: Text)
    requires EntryOk(fp, e, name, v) && (c == COMMA || c == RBRACE)
    ensures var t := EntryText(e, [c] + tail);
            && (c == RBRACE ==> ParseMembers(fp, t) == Ok(Member(name, v, NoMembers), tail))
            && (c == COMMA && ParseMembers(fp, tail).Ok? ==>
                  ParseMembers(fp, t) == Ok(Member(name, v, ParseMembers(fp, tail).value), ParseMembers(fp, tail).rest))
  {
    hide Parse, ParseString, Skip;
    var n, p := e.name, e.value;
    var after := p.after + ([c] + tail);
    var value := p.before + (p.core + after);
    var colon := n.after + ([COLON] + value);
    assert At(n.core + colon) == QUOTE;
    SkipTo(n.before, n.core + colon);
    assert ParseString(n.core + colon) == Ok(name, colon);
    SkipTo(n.after, [COLON] + value);
    assert ([COLON] + value)[1..] == value;
    assert At(p.core + after) == At(p.core);
    SkipTo(p.before, p.core + after);
    FollowsBlank(p.after, c, tail);
    assert Parse(fp, p.core + after) == Ok(v, after);
    assert ([c] + tail)[1..] == tail;
  }

  lemma {:induction false} EntriesRead(fp: Arith, es: seq<Entry>, ps: seq<Pair>, rest: Text)
    requires |es| == |ps| > 0 && forall i :: 0 <= i < |es| ==> EntryOk(fp, es[i], ps[i].name, ps[i].value)
    ensures ParseMembers(fp, Entries(es, rest)) == Ok(MembersOf(ps, NoMembers), rest)
    decreases |es|
  {
    hide ParseMembers, EntryOk, EntryText;
    if |es| == 1 {
      EntryIn(fp, es[0], ps[0].name, ps[0].value, RBRACE, rest);
      assert ps[1..] == [];
    } else {
      EntriesRead(fp, es[1..], ps[1..], rest);
      EntryIn(fp, es[0], ps[0].name, ps[0].value, COMMA, Entries(es[1..], rest));
    }
  }

  /** parse_object gives names and values in the order in which they are written. */
  lemma ObjectInOrder(fp: Arith, es: seq<Entry>, ps: seq<Pair>, rest: Text)
    requires |es| == |ps| > 0 && forall i :: 0 <= i < |es| ==> EntryOk(fp, es[i], ps[i].name, ps[i].value)
    ensures Parse(fp, [LBRACE] + Entries(es, rest)) == Ok(Object(MembersOf(ps, NoMembers)), rest)
  {
    hide Parse, ParseMembers, Skip, Entries;
    var t := [LBRACE] + Entries(es, rest);
    EntriesRead(fp, es, ps, rest);
    assert t[1..] == Entries(es, rest);
    EntriesSkip(fp, es, ps[0], rest);
    Dispatch(fp, t);
  }

  lemma EntriesSkip(fp: Arith, es: seq<Entry>, p: Pair, rest: Text)
    requires es != [] && EntryOk(fp, es[0], p.name, p.value)
    ensures var t := Entries(es, rest); At(Skip(t)) == QUOTE && ParseMembers(fp, Skip(t)) == ParseMembers(fp, t)
  {
    hide Parse, ParseString, Skip;
    var n, v := es[0].name, es[0].value;
    var tail := if |es| == 1 then [RBRACE] + rest else [COMMA] + Entries(es[1..], rest);
    var after := n.after + ([COLON] + (v.before + (v.core + (v.after + tail))));
    assert Entries(es, rest) == n.before + (n.core + after);
    SkipTo(n.before, n.core + after);
    SkipTo([], n.core + after);
    assert [] + (n.core + after) == n.core + after;
  }

  lemma EmptyObject(fp: Arith, blanks: Text, rest: Text)
    requires AllBlank(blanks)
    ensures Parse(fp, [LBRACE] + (blanks + ([RBRACE] + rest))) == Ok(Object(NoMembers), rest)
  {
    hide Parse;
    var t := [LBRACE] + (blanks + ([RBRACE] + rest));
    assert t[1..] == blanks + ([RBRACE] + rest);
    FollowsBlank(blanks, RBRACE, rest);
    assert ([RBRACE] + rest)[1..] == rest;
    Dispatch(fp, t);
  }
}
