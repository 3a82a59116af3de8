/** What cJSON prints, it parses back to the same tree. */
module JsonRoundTrip {
  import opened Basics
  import opened Doubles
  import opened JsonText

  ghost predicate AllBlank(b: Text) {
    forall i :: 0 <= i < |b| ==> 0 < b[i] <= 32
  }

  lemma {:induction false} SkipBlanks(b: Text, t: Text)
    requires AllBlank(b)
    ensures Skip(b + t) == Skip(t)
    decreases |b|
  {
    if b == [] {
      assert b + t == t;
    } else {
      assert (b + t)[1..] == b[1..] + t;
      SkipBlanks(b[1..], t);
    }
  }

  /** A text that starts with a character that is not skipped. */
  predicate Starts(t: Text) {
    t != [] && t[0] > 32
  }

  lemma SkipNothing(t: Text)
    requires Starts(t)
    ensures Skip(t) == t
  {
  }

  /** A printed value starts with a character that tells its kind. */
  lemma PrintStart(v: Json, depth: nat, fmt: bool)
    requires Printable(v)
    ensures var s := Print(v, depth, fmt);
            && s[0] > 32 && s[0] != RBRACKET && s[0] != RBRACE
            && (v.String? ==> s[0] == QUOTE) && (v.Array? ==> s[0] == LBRACKET) && (v.Object? ==> s[0] == LBRACE)
            && (v.Number? ==> s[0] == MINUS || IsDigit(s[0]))
  {
  }

  /** The text inside the brackets of an array and after it. */
  function ItemsText(items: Items, depth: nat, fmt: bool, rest: Text): (t: Text)
    requires PrintableItems(items)
  {
    PrintItems(items, depth, fmt) + ([RBRACKET] + rest)
  }

  /** The text inside the braces of an object, blanks before the closing brace included, and after it. */
  function MembersText(members: Members, depth: nat, fmt: bool, blanks: Text, rest: Text): (t: Text)
    requires PrintableMembers(members)
  {
    PrintMembers(members, depth, fmt) + (blanks + ([RBRACE] + rest))
  }

  /** What follows the value of the first item. */
  function AfterItem(more: Items, depth: nat, fmt: bool, rest: Text): (t: Text)
    requires PrintableItems(more)
  {
    if more.NoItems? then [RBRACKET] + rest
    else [COMMA] + ((if fmt then [SPACE] else []) + ItemsText(more, depth, fmt, rest))
  }

  lemma Assoc(a: Text, b: Text, c: Text)
    ensures (a + b) + c == a + (b + c)
  {
  }

  lemma Assoc4(a: Text, b: Text, c: Text, d: Text)
    ensures a + b + c + d == a + (b + (c + d))
  {
    Assoc(a + b, c, d);
    Assoc(a, b, c + d);
  }

  lemma ItemsSplit(items: Items, depth: nat, fmt: bool, rest: Text)
    requires PrintableItems(items) && items.Item?
    ensures ItemsText(items, depth, fmt, rest) == Print(items.value, depth, fmt) + AfterItem(items.more, depth, fmt, rest)
  {
    hide Print, PrintItems, PrintableItems, Printable;
    ItemsUnfold(items, depth, fmt);
    var p := Print(items.value, depth, fmt);
    var r := [RBRACKET] + rest;
    if items.more.NoItems? {
      assert p + [] == p;
    } else {
      var sp: Text := if fmt then [SPACE] else [];
      var q := PrintItems(items.more, depth, fmt);
      Assoc(p, [COMMA] + sp + q, r);
      Assoc4([COMMA], sp, q, r);
    }
  }

  lemma ItemsUnfold(items: Items, depth: nat, fmt: bool)
    requires PrintableItems(items) && items.Item?
    ensures Printable(items.value) && PrintableItems(items.more)
    ensures PrintItems(items, depth, fmt) == Print(items.value, depth, fmt) +
      (if items.more.NoItems? then [] else [COMMA] + (if fmt then [SPACE] else []) + PrintItems(items.more, depth, fmt))
  {
  }

  /** What follows the value of the first member. */
  function AfterMember(more: Members, depth: nat, fmt: bool, blanks: Text, rest: Text): (t: Text)
    requires PrintableMembers(more)
  {
    var line := if fmt then [NEWLINE] else [];
    if more.NoMembers? then line + (blanks + ([RBRACE] + rest))
    else [COMMA] + (line + MembersText(more, depth, fmt, blanks, rest))
  }

  lemma MembersUnfold(members: Members, depth: nat, fmt: bool)
    requires PrintableMembers(members) && members.Member?
    ensures Printable(members.value) && PrintableMembers(members.more) && 0 !in members.name
    ensures PrintMembers(members, depth, fmt) ==
      (if fmt then Tabs(depth) else []) + PrintString(members.name) + [COLON] + (if fmt then [TAB] else []) +
      Print(members.value, depth, fmt) +
      (if members.more.NoMembers? then [] else [COMMA]) + (if fmt then [NEWLINE] else []) +
      PrintMembers(members.more, depth, fmt)
    ensures PrintMembers(NoMembers, depth, fmt) == []
  {
  }

  /** The nine pieces of a printed member and the text after it, grouped from the right. */
  lemma Nested(a: Text, n: Text, c: Text, tab: Text, p: Text, comma: Text, line: Text, q: Text, r: Text)
    ensures a + ([QUOTE] + n + [QUOTE]) + c + tab + p + comma + line + q + r ==
      a + ([QUOTE] + (n + [QUOTE] + (c + (tab + (p + (comma + (line + (q + r))))))))
  {
    var s := [QUOTE] + n + [QUOTE];
    var x5 := line + (q + r);
    Assoc4(a + s + c + tab + p + comma, line, q, r);
    Assoc4(a + s + c + tab, p, comma, x5);
    var x3 := p + (comma + x5);
    Assoc4(a + s, c, tab, x3);
    Assoc(a, s, c + (tab + x3));
    Assoc4([QUOTE], n, [QUOTE], c + (tab + x3));
    Assoc(n, [QUOTE], c + (tab + x3));
  }

  lemma MembersSplit(members: Members, depth: nat, fmt: bool, blanks: Text, rest: Text)
    requires PrintableMembers(members) && members.Member?
    ensures MembersText(members, depth, fmt, blanks, rest) ==
      (if fmt then Tabs(depth) else []) +
      ([QUOTE] + (EscapeAll(members.name) + [QUOTE] +
        ([COLON] + ((if fmt then [TAB] else []) +
          (Print(members.value, depth, fmt) + AfterMember(members.more, depth, fmt, blanks, rest))))))
  {
    hide Print, PrintMembers, EscapeAll, Tabs, PrintableMembers, Printable;
    MembersUnfold(members, depth, fmt);
    var line: Text := if fmt then [NEWLINE] else [];
    var comma: Text := if members.more.NoMembers? then [] else [COMMA];
    var q, r := PrintMembers(members.more, depth, fmt), blanks + ([RBRACE] + rest);
    Nested(if fmt then Tabs(depth) else [], EscapeAll(members.name), [COLON], if fmt then [TAB] else [],
           Print(members.value, depth, fmt), comma, line, q, r);
    if members.more.NoMembers? {
      assert [] + (line + (q + r)) == line + (q + r) && q + r == r;
    }
  }

  lemma AfterItemEnds(more: Items, depth: nat, fmt: bool, rest: Text)
    requires PrintableItems(more)
    ensures Starts(AfterItem(more, depth, fmt, rest)) && EndsNumber(AfterItem(more, depth, fmt, rest))
  {
  }

  lemma AfterMemberEnds(more: Members, depth: nat, fmt: bool, blanks: Text, rest: Text)
    requires PrintableMembers(more) && AllBlank(blanks)
    ensures EndsNumber(AfterMember(more, depth, fmt, blanks, rest))
  {
    var line: Text := if fmt then [NEWLINE] else [];
    if more.NoMembers? && blanks == [] {
      assert line + (blanks + ([RBRACE] + rest)) == line + ([RBRACE] + rest);
    }
  }

  /** One item, given how the rest is parsed. */
  lemma ItemStep(fp: Arith, items: Items, depth: nat, fmt: bool, rest: Text)
    requires PrintableItems(items) && items.Item?
    requires var after := AfterItem(items.more, depth, fmt, rest);
             Parse(fp, Print(items.value, depth, fmt) + after) == Ok(items.value, after)
    requires items.more.Item? ==> ParseItems(fp, ItemsText(items.more, depth, fmt, rest)) == Ok(items.more, rest)
    ensures ParseItems(fp, ItemsText(items, depth, fmt, rest)) == Ok(items, rest)
  {
    hide Print, PrintItems, Parse;
    var t := ItemsText(items, depth, fmt, rest);
    var after := AfterItem(items.more, depth, fmt, rest);
    ItemsSplit(items, depth, fmt, rest);
    PrintStart(items.value, depth, fmt);
    SkipNothing(t);
    AfterItemEnds(items.more, depth, fmt, rest);
    SkipNothing(after);
    if items.more.Item? {
      ItemsBlank(fp, fmt, ItemsText(items.more, depth, fmt, rest));
      assert after[1..] == (if fmt then [SPACE] else []) + ItemsText(items.more, depth, fmt, rest);
    } else {
      assert after[1..] == rest;
    }
  }

  lemma ItemsBlank(fp: Arith, fmt: bool, t: Text)
    ensures ParseItems(fp, (if fmt then [SPACE] else []) + t) == ParseItems(fp, t)
  {
    hide Parse;
    var b: Text := if fmt then [SPACE] else [];
    SkipBlanks(b, t);
    assert !fmt ==> b + t == t;
  }

  lemma MembersBlank(fp: Arith, b: Text, t: Text)
    requires AllBlank(b)
    ensures ParseMembers(fp, b + t) == ParseMembers(fp, t)
  {
    hide Parse, ParseString;
    SkipBlanks(b, t);
  }

  /** The value of a member and what follows it, given how the rest is parsed. */
  lemma MemberValue(fp: Arith, name: Text, v: Json, more: Members, depth: nat, fmt: bool, blanks: Text, rest: Text,
                    t: Text)
    requires Printable(v) && PrintableMembers(more) && AllBlank(blanks)
    requires var after := AfterMember(more, depth, fmt, blanks, rest);
             && Parse(fp, Print(v, depth, fmt) + after) == Ok(v, after)
             && ParseString(Skip(t)) ==
                  Ok(name, [COLON] + ((if fmt then [TAB] else []) + (Print(v, depth, fmt) + after)))
    requires more.Member? ==> ParseMembers(fp, MembersText(more, depth, fmt, blanks, rest)) == Ok(more, rest)
    ensures ParseMembers(fp, t) == Ok(Member(name, v, more), rest)
  {
    hide Print, PrintMembers, Parse, ParseString, Printable, PrintableMembers;
    var after := AfterMember(more, depth, fmt, blanks, rest);
    var tab: Text := if fmt then [TAB] else [];
    var line: Text := if fmt then [NEWLINE] else [];
    var u := Print(v, depth, fmt) + after;
    var t1 := [COLON] + (tab + u);
    SkipNothing(t1);
    assert t1[1..] == tab + u;
    SkipBlanks(tab, u);
    PrintStart(v, depth, fmt);
    SkipNothing(u);
    if more.Member? {
      SkipNothing(after);
      assert after[1..] == line + MembersText(more, depth, fmt, blanks, rest);
      MembersBlank(fp, line, MembersText(more, depth, fmt, blanks, rest));
    } else {
      SkipBlanks(line, blanks + ([RBRACE] + rest));
      SkipBlanks(blanks, [RBRACE] + rest);
      SkipNothing([RBRACE] + rest);
      assert ([RBRACE] + rest)[1..] == rest;
    }
  }

  lemma MemberStep(fp: Arith, members: Members, depth: nat, fmt: bool, blanks: Text, rest: Text)
    requires PrintableMembers(members) && members.Member? && AllBlank(blanks)
    requires var after := AfterMember(members.more, depth, fmt, blanks, rest);
             Parse(fp, Print(members.value, depth, fmt) + after) == Ok(members.value, after)
    requires members.more.Member? ==>
               ParseMembers(fp, MembersText(members.more, depth, fmt, blanks, rest)) == Ok(members.more, rest)
    ensures ParseMembers(fp, MembersText(members, depth, fmt, blanks, rest)) == Ok(members, rest)
  {
    hide Print, PrintMembers, Parse, ParseMembers, EscapeAll, Unescape, Printable;
    var after := AfterMember(members.more, depth, fmt, blanks, rest);
    var t := MembersText(members, depth, fmt, blanks, rest);
    var u := [COLON] + ((if fmt then [TAB] else []) + (Print(members.value, depth, fmt) + after));
    var w := EscapeAll(members.name) + [QUOTE] + u;
    MembersSplit(members, depth, fmt, blanks, rest);
    SkipBlanks(if fmt then Tabs(depth) else [], [QUOTE] + w);
    SkipNothing([QUOTE] + w);
    assert ([QUOTE] + w)[1..] == w;
    StringRoundTrip(members.name, u);
    MemberValue(fp, members.name, members.value, members.more, depth, fmt, blanks, rest, t);
  }

  /** Parsing the printed text, formatted or not, at any depth and before any text that does not continue a number,
      gives back the tree, and leaves that text. */
  lemma {:induction false} RoundTrip(fp: Arith, v: Json, depth: nat, fmt: bool, rest: Text)
    requires Exact(fp) && Printable(v) && (v.Number? ==> EndsNumber(rest))
    ensures Parse(fp, Print(v, depth, fmt) + rest) == Ok(v, rest)
    decreases v, 0
  {
    match v
    case Null => WordRoundTrip(fp, v, depth, fmt, rest);
    case False => WordRoundTrip(fp, v, depth, fmt, rest);
    case True => WordRoundTrip(fp, v, depth, fmt, rest);
    case Number(_, _) => ValueOfNumber(fp, v, depth, fmt, rest);
    case String(s) => ValueOfString(fp, s, depth, fmt, rest);
    case Array(items) =>
      if items.Item? {
        ItemsRoundTrip(fp, items, depth + 1, fmt, rest);
      }
      ValueOfArray(fp, items, depth, fmt, rest);
    case Object(members) =>
      if members.Member? {
        MembersRoundTrip(fp, members, depth + 1, fmt, if fmt then Tabs(depth) else [], rest);
      }
      ValueOfObject(fp, members, depth, fmt, rest);
  }

  lemma {:induction false} ItemsRoundTrip(fp: Arith, items: Items, depth: nat, fmt: bool, rest: Text)
    requires Exact(fp) && PrintableItems(items) && items.Item?
    ensures ParseItems(fp, ItemsText(items, depth, fmt, rest)) == Ok(items, rest)
    decreases items, 1
  {
    hide Print, PrintItems, Parse, ParseItems;
    var after := AfterItem(items.more, depth, fmt, rest);
    AfterItemEnds(items.more, depth, fmt, rest);
    RoundTrip(fp, items.value, depth, fmt, after);
    if items.more.Item? {
      ItemsRoundTrip(fp, items.more, depth, fmt, rest);
    }
    ItemStep(fp, items, depth, fmt, rest);
  }

  lemma {:induction false} MembersRoundTrip(fp: Arith, members: Members, depth: nat, fmt: bool, blanks: Text,
                                            rest: Text)
    requires Exact(fp) && PrintableMembers(members) && members.Member? && AllBlank(blanks)
    ensures ParseMembers(fp, MembersText(members, depth, fmt, blanks, rest)) == Ok(members, rest)
    decreases members, 1
  {
    hide Print, PrintMembers, Parse, ParseMembers;
    var after := AfterMember(members.more, depth, fmt, blanks, rest);
    AfterMemberEnds(members.more, depth, fmt, blanks, rest);
    RoundTrip(fp, members.value, depth, fmt, after);
    if members.more.Member? {
      MembersRoundTrip(fp, members.more, depth, fmt, blanks, rest);
    }
    MemberStep(fp, members, depth, fmt, blanks, rest);
  }

  lemma WordRoundTrip(fp: Arith, v: Json, depth: nat, fmt: bool, rest: Text)
    requires v.Null? || v.False? || v.True?
    ensures Printable(v) && Parse(fp, Print(v, depth, fmt) + rest) == Ok(v, rest)
  {
    hide ParseItems, ParseMembers, ParseString, ParseNumber;
    var w := Print(v, depth, fmt);
    assert (w + rest)[..|w|] == w && (w + rest)[|w|..] == rest;
    if !v.Null? {
      NotWord(w + rest, [110, 117, 108, 108]);
    }
    if v.True? {
      NotWord(w + rest, [102, 97, 108, 115, 101]);
    }
  }

  lemma NotWord(t: Text, w: Text)
    requires w != [] && At(t) != w[0]
    ensures !StartsWith(t, w)
  {
    assert |t| >= |w| ==> t[..|w|][0] == t[0];
  }

  /** The branches of parse_value, by the first character. */
  lemma Dispatch(fp: Arith, t: Text)
    requires At(t) == QUOTE || At(t) == MINUS || IsDigit(At(t)) || At(t) == LBRACKET || At(t) == LBRACE
    ensures At(t) == QUOTE && ParseString(t).Ok? ==> Parse(fp, t) == Ok(String(ParseString(t).value), ParseString(t).rest)
    ensures (At(t) == MINUS || IsDigit(At(t))) && ParseNumber(fp, t).Ok? ==>
      Parse(fp, t) == Ok(Number(ToInt(fp, ParseNumber(fp, t).value), ParseNumber(fp, t).value), ParseNumber(fp, t).rest)
    ensures At(t) == LBRACKET ==>
      var t1 := Skip(t[1..]);
      && (At(t1) == RBRACKET ==> Parse(fp, t) == Ok(Array(NoItems), t1[1..]))
      && (At(t1) != RBRACKET && ParseItems(fp, t1).Ok? ==> Parse(fp, t) == Ok(Array(ParseItems(fp, t1).value), ParseItems(fp, t1).rest))
    ensures At(t) == LBRACE ==>
      var t1 := Skip(t[1..]);
      && (At(t1) == RBRACE ==> Parse(fp, t) == Ok(Object(NoMembers), t1[1..]))
      && (At(t1) != RBRACE && ParseMembers(fp, t1).Ok? ==> Parse(fp, t) == Ok(Object(ParseMembers(fp, t1).value), ParseMembers(fp, t1).rest))
  {
    hide ParseItems, ParseMembers, ParseString, ParseNumber, StartsWith, Skip;
    NotWord(t, [110, 117, 108, 108]);
    NotWord(t, [102, 97, 108, 115, 101]);
    NotWord(t, [116, 114, 117, 101]);
  }

  lemma ValueOfNumber(fp: Arith, v: Json, depth: nat, fmt: bool, rest: Text)
    requires Exact(fp) && v.Number? && Printable(v) && EndsNumber(rest)
    ensures Parse(fp, Print(v, depth, fmt) + rest) == Ok(v, rest)
  {
    hide Parse, ParseNumber, PrintInt;
    PrintStart(v, depth, fmt);
    Dispatch(fp, Print(v, depth, fmt) + rest);
    NumberRoundTrip(fp, v.n, rest);
  }

  lemma ValueOfString(fp: Arith, s: Text, depth: nat, fmt: bool, rest: Text)
    requires 0 !in s
    ensures Parse(fp, Print(String(s), depth, fmt) + rest) == Ok(String(s), rest)
  {
    hide Parse, Unescape, EscapeAll;
    var t := Print(String(s), depth, fmt) + rest;
    Assoc4([QUOTE], EscapeAll(s), [QUOTE], rest);
    Assoc(EscapeAll(s), [QUOTE], rest);
    assert t[1..] == EscapeAll(s) + [QUOTE] + rest;
    StringRoundTrip(s, rest);
    Dispatch(fp, t);
  }

  lemma ValueOfArray(fp: Arith, items: Items, depth: nat, fmt: bool, rest: Text)
    requires PrintableItems(items)
    requires items.Item? ==> ParseItems(fp, ItemsText(items, depth + 1, fmt, rest)) == Ok(items, rest)
    ensures Parse(fp, Print(Array(items), depth, fmt) + rest) == Ok(Array(items), rest)
  {
    hide Parse, ParseItems, PrintItems, Skip;
    var t := Print(Array(items), depth, fmt) + rest;
    var inner := ItemsText(items, depth + 1, fmt, rest);
    Assoc4([LBRACKET], PrintItems(items, depth + 1, fmt), [RBRACKET], rest);
    assert t == [LBRACKET] + inner && t[1..] == inner;
    if items.Item? {
      ItemsSplit(items, depth + 1, fmt, rest);
      PrintStart(items.value, depth + 1, fmt);
    } else {
      NoItemsText(depth + 1, fmt);
      assert inner == [RBRACKET] + rest && inner[1..] == rest;
    }
    SkipNothing(inner);
    Dispatch(fp, t);
  }

  lemma NoItemsText(depth: nat, fmt: bool)
    ensures PrintItems(NoItems, depth, fmt) == [] && PrintMembers(NoMembers, depth, fmt) == []
  {
  }

  lemma ValueOfObject(fp: Arith, members: Members, depth: nat, fmt: bool, rest: Text)
    requires PrintableMembers(members)
    requires members.Member? ==>
      ParseMembers(fp, MembersText(members, depth + 1, fmt, if fmt then Tabs(depth) else [], rest)) == Ok(members, rest)
    ensures Parse(fp, Print(Object(members), depth, fmt) + rest) == Ok(Object(members), rest)
  {
    hide Parse, ParseMembers, PrintMembers, Tabs, Skip;
    var blanks: Text := if fmt then Tabs(depth) else [];
    var line: Text := if fmt then [NEWLINE] else [];
    var p := PrintMembers(members, depth + 1, fmt);
    var t := Print(Object(members), depth, fmt) + rest;
    var inner := MembersText(members, depth + 1, fmt, blanks, rest);
    ObjectText(line, p, blanks, rest);
    assert t == [LBRACE] + (line + inner) && t[1..] == line + inner;
    SkipBlanks(line, inner);
    Dispatch(fp, t);
    if members.Member? {
      ObjectSkip(fp, members, depth, fmt, blanks, rest);
    } else {
      NoItemsText(depth + 1, fmt);
      assert inner == blanks + ([RBRACE] + rest);
      SkipBlanks(blanks, [RBRACE] + rest);
      SkipNothing([RBRACE] + rest);
      assert ([RBRACE] + rest)[1..] == rest;
    }
  }

  lemma ObjectText(line: Text, p: Text, blanks: Text, rest: Text)
    ensures [LBRACE] + line + p + blanks + [RBRACE] + rest == [LBRACE] + (line + (p + (blanks + ([RBRACE] + rest))))
  {
    Assoc4([LBRACE] + line + p, blanks, [RBRACE], rest);
    Assoc4([LBRACE], line, p, blanks + ([RBRACE] + rest));
  }

  /** The first member starts with a quote, so that skipping its tabs makes no difference to what is parsed. */
  lemma ObjectSkip(fp: Arith, members: Members, depth: nat, fmt: bool, blanks: Text, rest: Text)
    requires PrintableMembers(members) && members.Member?
    ensures var inner := MembersText(members, depth + 1, fmt, blanks, rest);
            At(Skip(inner)) == QUOTE && ParseMembers(fp, Skip(inner)) == ParseMembers(fp, inner)
  {
    hide Parse, ParseString, Print, PrintMembers, EscapeAll;
    var inner := MembersText(members, depth + 1, fmt, blanks, rest);
    MembersSplit(members, depth + 1, fmt, blanks, rest);
    var w := EscapeAll(members.name) + [QUOTE] +
      ([COLON] + ((if fmt then [TAB] else []) +
        (Print(members.value, depth + 1, fmt) + AfterMember(members.more, depth + 1, fmt, blanks, rest))));
    SkipBlanks(if fmt then Tabs(depth + 1) else [], [QUOTE] + w);
    SkipNothing([QUOTE] + w);
  }

  /** cJSON_Parse of what cJSON_Print (fmt) or cJSON_PrintUnformatted printed. */
  lemma DocumentRoundTrip(fp: Arith, v: Json, fmt: bool)
    requires Exact(fp) && Printable(v)
    ensures Parse(fp, Skip(Print(v, 0, fmt))) == Ok(v, [])
  {
    hide Parse, Print;
    RoundTrip(fp, v, 0, fmt, []);
    assert Print(v, 0, fmt) + [] == Print(v, 0, fmt);
    PrintStart(v, 0, fmt);
    SkipNothing(Print(v, 0, fmt));
  }
}
