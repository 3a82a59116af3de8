/** print_value, print_array and print_object of cJSON.c: the children are printed first and their lengths added
    up, then the text is composed in a buffer of that length. */
module JsonPrint {
  import opened Basics
  import opened JsonText
  import opened JsonBuffers

  // ---------- a text composed piece by piece

  /** The pieces from the i-th on, one after the other. */
  function Flat(ps: seq<Text>, i: nat): (s: Text)
    requires i <= |ps|
    decreases |ps| - i
  {
    if i == |ps| then [] else ps[i] + Flat(ps, i + 1)
  }

  function Sum(cs: seq<nat>): (n: nat)
    decreases |cs|
  {
    if cs == [] then 0 else Sum(cs[..|cs| - 1]) + cs[|cs| - 1]
  }

  lemma {:induction false} FlatFits(ps: seq<Text>, cs: seq<nat>, i: nat)
    requires i <= |ps| == |cs|
    requires forall k :: 0 <= k < |ps| ==> |ps[k]| <= cs[k]
    ensures Sum(cs[..i]) + |Flat(ps, i)| <= Sum(cs)
    decreases |ps| - i
  {
    if i == |ps| {
      assert cs[..i] == cs;
    } else {
      FlatFits(ps, cs, i + 1);
      assert cs[..i + 1][..i] == cs[..i];
    }
  }

  lemma Fits(ps: seq<Text>, cs: seq<nat>)
    requires |ps| == |cs|
    requires forall k :: 0 <= k < |ps| ==> |ps[k]| <= cs[k]
    ensures |Flat(ps, 0)| <= Sum(cs)
  {
    FlatFits(ps, cs, 0);
  }

  lemma {:induction false} FlatShift(p: Text, ps: seq<Text>, i: nat)
    requires i <= |ps|
    ensures Flat([p] + ps, i + 1) == Flat(ps, i)
    decreases |ps| - i
  {
    var qs := [p] + ps;
    if i < |ps| {
      FlatShift(p, ps, i + 1);
      assert qs[i + 1] == ps[i];
    }
  }

  lemma FlatCons(p: Text, ps: seq<Text>)
    ensures Flat([p] + ps, 0) == p + Flat(ps, 0)
  {
    FlatShift(p, ps, 0);
  }

  lemma SumSnoc(cs: seq<nat>, c: nat)
    ensures Sum(cs + [c]) == Sum(cs) + c
  {
    assert (cs + [c])[..|cs|] == cs;
  }

  // ---------- arrays

  function Separator(last: bool, fmt: bool): (s: Text) {
    if last then [] else [COMMA] + (if fmt then [SPACE] else [])
  }

  function ArrayPieces(es: seq<Text>, fmt: bool): (ps: seq<Text>) {
    seq(|es|, i requires 0 <= i < |es| => es[i] + Separator(i == |es| - 1, fmt))
  }

  /** What print_array adds to its length for each entry. */
  function ArrayCosts(es: seq<Text>, fmt: bool): (cs: seq<nat>) {
    seq(|es|, i requires 0 <= i < |es| => |es[i]| + 2 + if fmt then 1 else 0)
  }

  function Entries(items: Items, depth: nat, fmt: bool): (es: seq<Text>)
    requires PrintableItems(items)
  {
    match items
    case NoItems => []
    case Item(v, more) => [Print(v, depth, fmt)] + Entries(more, depth, fmt)
  }

  lemma {:induction false} EntriesPrint(items: Items, depth: nat, fmt: bool)
    requires PrintableItems(items)
    ensures Flat(ArrayPieces(Entries(items, depth, fmt), fmt), 0) == PrintItems(items, depth, fmt)
  {
    hide Print;
    if items.Item? {
      var es := Entries(items.more, depth, fmt);
      var p := Print(items.value, depth, fmt);
      EntriesPrint(items.more, depth, fmt);
      assert items.more.NoItems? <==> es == [];
      var first := p + Separator(es == [], fmt);
      assert ArrayPieces([p] + es, fmt) == [first] + ArrayPieces(es, fmt);
      FlatCons(first, ArrayPieces(es, fmt));
      Assoc(p, Separator(es == [], fmt), PrintItems(items.more, depth, fmt));
    }
  }

  lemma Assoc<T>(a: seq<T>, b: seq<T>, c: seq<T>)
    ensures a + b + c == a + (b + c)
  {
  }

  /** One round of the loop that writes the entries. */
  method PutEntry(out: array<byte>, p: nat, e: Text, last: bool, fmt: bool, ghost before: Text) returns (p': nat)
    requires p + |e + Separator(last, fmt)| < out.Length && out[..p] == before
    modifies out
    ensures p' == p + |e + Separator(last, fmt)| && out[..p'] == before + (e + Separator(last, fmt))
  {
    p' := Append(out, p, e, before);
    if !last {
      p' := Put(out, p', COMMA, before + e);
      if fmt {
        p' := Put(out, p', SPACE, before + e + [COMMA]);
      }
      Terminate(out, p', before + (e + Separator(last, fmt)));
    }
  }

  lemma ArrayFits(es: seq<Text>, fmt: bool)
    ensures |Flat(ArrayPieces(es, fmt), 0)| <= Sum(ArrayCosts(es, fmt))
  {
    var ps, cs := ArrayPieces(es, fmt), ArrayCosts(es, fmt);
    forall k | 0 <= k < |ps| ensures |ps[k]| <= cs[k] {
      assert |Separator(k == |es| - 1, fmt)| <= 2;
    }
    Fits(ps, cs);
  }

  method ComposeArray(es: seq<Text>, fmt: bool, len: nat) returns (s: Text)
    requires len == 5 + Sum(ArrayCosts(es, fmt))
    ensures s == [LBRACKET] + Flat(ArrayPieces(es, fmt), 0) + [RBRACKET]
  {
    hide Flat, Sum;
    ghost var ps := ArrayPieces(es, fmt);
    ArrayFits(es, fmt);
    var out := new byte[len];
    ghost var all := [LBRACKET] + Flat(ps, 0);
    assert out[..0] == [];
    var p := Put(out, 0, LBRACKET, []);
    ghost var done: Text := [LBRACKET];
    Terminate(out, p, done);
    for i := 0 to |es|
      invariant p == |done| <= |all| <= len - 2
      invariant out[..p] == done && done + Flat(ps, i) == all
    {
      FlatOne(ps, i);
      Assoc(done, ps[i], Flat(ps, i + 1));
      p := PutEntry(out, p, es[i], i == |es| - 1, fmt, done);
      done := done + ps[i];
    }
    FlatNone(ps);
    p := Put(out, p, RBRACKET, all);
    Terminate(out, p, all + [RBRACKET]);
    s := out[..p];
  }

  lemma FlatOne(ps: seq<Text>, i: nat)
    requires i < |ps|
    ensures Flat(ps, i) == ps[i] + Flat(ps, i + 1)
  {
  }

  lemma FlatNone(ps: seq<Text>)
    ensures Flat(ps, |ps|) == []
  {
  }

  // ---------- objects

  function NamePiece(name: Text, depth: nat, fmt: bool): (s: Text) {
    (if fmt then Tabs(depth) else []) + name + [COLON] + (if fmt then [TAB] else [])
  }

  function ValuePiece(e: Text, last: bool, fmt: bool): (s: Text) {
    e + (if last then [] else [COMMA]) + (if fmt then [NEWLINE] else [])
  }

  function MemberPieces(names: seq<Text>, es: seq<Text>, depth: nat, fmt: bool): (ps: seq<Text>)
    requires |names| == |es|
  {
    seq(|es|, i requires 0 <= i < |es| =>
      NamePiece(names[i], depth, fmt) + ValuePiece(es[i], i == |es| - 1, fmt))
  }

  /** What print_object adds to its length for each member. */
  function MemberCosts(names: seq<Text>, es: seq<Text>, depth: nat, fmt: bool): (cs: seq<nat>)
    requires |names| == |es|
  {
    seq(|es|, i requires 0 <= i < |es| => |es[i]| + |names[i]| + 2 + if fmt then 2 + depth else 0)
  }

  function Names(members: Members): (ns: seq<Text>)
    requires PrintableMembers(members)
  {
    match members
    case NoMembers => []
    case Member(name, _, more) => [PrintString(name)] + Names(more)
  }

  function Values(members: Members, depth: nat, fmt: bool): (es: seq<Text>)
    requires PrintableMembers(members)
    ensures |es| == |Names(members)|
  {
    match members
    case NoMembers => []
    case Member(_, v, more) => [Print(v, depth, fmt)] + Values(more, depth, fmt)
  }

  lemma {:induction false} MembersPrint(members: Members, depth: nat, fmt: bool)
    requires PrintableMembers(members)
    ensures Flat(MemberPieces(Names(members), Values(members, depth, fmt), depth, fmt), 0) ==
            PrintMembers(members, depth, fmt)
  {
    hide Print, PrintString, Tabs, NamePiece, ValuePiece;
    if members.Member? {
      var ns, es := Names(members.more), Values(members.more, depth, fmt);
      var n, e := PrintString(members.name), Print(members.value, depth, fmt);
      MembersPrint(members.more, depth, fmt);
      assert members.more.NoMembers? <==> es == [];
      var first := NamePiece(n, depth, fmt) + ValuePiece(e, es == [], fmt);
      assert MemberPieces([n] + ns, [e] + es, depth, fmt) == [first] + MemberPieces(ns, es, depth, fmt);
      FlatCons(first, MemberPieces(ns, es, depth, fmt));
      PrintMembersStep(members, depth, fmt);
    }
  }

  lemma PrintMembersStep(members: Members, depth: nat, fmt: bool)
    requires PrintableMembers(members) && members.Member?
    ensures PrintMembers(members, depth, fmt) ==
            NamePiece(PrintString(members.name), depth, fmt) +
            ValuePiece(Print(members.value, depth, fmt), members.more.NoMembers?, fmt) +
            PrintMembers(members.more, depth, fmt)
  {
    hide Print, PrintString, Tabs;
  }

  method PutTabs(out: array<byte>, p: nat, n: nat, ghost before: Text) returns (p': nat)
    requires p + n <= out.Length && out[..p] == before
    modifies out
    ensures p' == p + n && out[..p'] == before + Tabs(n)
  {
    p' := p;
    for j := 0 to n
      invariant p' == p + j && out[..p'] == before + Tabs(j)
    {
      p' := Put(out, p', TAB, before + Tabs(j));
      assert before + Tabs(j) + [TAB] == before + Tabs(j + 1);
    }
  }

  method PutName(out: array<byte>, p: nat, name: Text, depth: nat, fmt: bool, ghost before: Text) returns (p': nat)
    requires p + |NamePiece(name, depth, fmt)| < out.Length && out[..p] == before
    modifies out
    ensures p' == p + |NamePiece(name, depth, fmt)| && out[..p'] == before + NamePiece(name, depth, fmt)
  {
    hide Tabs;
    ghost var done: Text := [];
    p' := p;
    if fmt {
      p' := PutTabs(out, p', depth, before);
      done := Tabs(depth);
    }
    p' := Append(out, p', name, before + done);
    p' := Put(out, p', COLON, before + done + name);
    if fmt {
      p' := Put(out, p', TAB, before + done + name + [COLON]);
    }
  }

  method PutValue(out: array<byte>, p: nat, e: Text, last: bool, fmt: bool, ghost before: Text) returns (p': nat)
    requires p + |ValuePiece(e, last, fmt)| < out.Length && out[..p] == before
    modifies out
    ensures p' == p + |ValuePiece(e, last, fmt)| && out[..p'] == before + ValuePiece(e, last, fmt)
  {
    p' := Append(out, p, e, before);
    ghost var done := e;
    if !last {
      p' := Put(out, p', COMMA, before + done);
      done := done + [COMMA];
    }
    if fmt {
      p' := Put(out, p', NEWLINE, before + done);
    }
    Terminate(out, p', before + ValuePiece(e, last, fmt));
  }

  method PutMembers(out: array<byte>, p: nat, names: seq<Text>, es: seq<Text>, depth: nat, fmt: bool,
                    ghost before: Text) returns (p': nat)
    requires |names| == |es|
    requires p + |Flat(MemberPieces(names, es, depth, fmt), 0)| < out.Length && out[..p] == before
    modifies out
    ensures p' == p + |Flat(MemberPieces(names, es, depth, fmt), 0)|
    ensures out[..p'] == before + Flat(MemberPieces(names, es, depth, fmt), 0)
  {
    hide Flat, NamePiece, ValuePiece;
    ghost var ps := MemberPieces(names, es, depth, fmt);
    ghost var all := before + Flat(ps, 0);
    ghost var done := before;
    p' := p;
    for i := 0 to |es|
      invariant p' == |done| <= |all| < out.Length
      invariant out[..p'] == done && done + Flat(ps, i) == all
    {
      FlatOne(ps, i);
      Assoc(done, ps[i], Flat(ps, i + 1));
      ghost var name, value := NamePiece(names[i], depth, fmt), ValuePiece(es[i], i == |es| - 1, fmt);
      assert ps[i] == name + value;
      p' := PutName(out, p', names[i], depth, fmt, done);
      p' := PutValue(out, p', es[i], i == |es| - 1, fmt, done + name);
      Assoc(done, name, value);
      done := done + ps[i];
    }
    FlatNone(ps);
    assert done == all;
  }

  lemma MembersFit(names: seq<Text>, es: seq<Text>, depth: nat, fmt: bool)
    requires |names| == |es|
    ensures |Flat(MemberPieces(names, es, depth, fmt), 0)| <= Sum(MemberCosts(names, es, depth, fmt))
  {
    Fits(MemberPieces(names, es, depth, fmt), MemberCosts(names, es, depth, fmt));
  }

  method ComposeObject(names: seq<Text>, es: seq<Text>, depth: nat, fmt: bool, len: nat) returns (s: Text)
    requires |names| == |es| && depth > 0
    requires len == 7 + (if fmt then depth else 0) + Sum(MemberCosts(names, es, depth, fmt))
    ensures s == [LBRACE] + (if fmt then [NEWLINE] else []) + Flat(MemberPieces(names, es, depth, fmt), 0) +
                 (if fmt then Tabs(depth - 1) else []) + [RBRACE]
  {
    hide Flat, Sum, MemberPieces, MemberCosts, Tabs;
    MembersFit(names, es, depth, fmt);
    var out := new byte[len];
    assert out[..0] == [];
    var p := Put(out, 0, LBRACE, []);
    ghost var done: Text := [LBRACE];
    if fmt {
      p := Put(out, p, NEWLINE, done);
      done := done + [NEWLINE];
    }
    Terminate(out, p, done);
    p := PutMembers(out, p, names, es, depth, fmt, done);
    done := done + Flat(MemberPieces(names, es, depth, fmt), 0);
    if fmt {
      p := PutTabs(out, p, depth - 1, done);
      done := done + Tabs(depth - 1);
    }
    p := Put(out, p, RBRACE, done);
    Terminate(out, p, done + [RBRACE]);
    s := out[..p];
  }

  // ---------- the printer

  /** print_number's first branch: the buffer has 21 bytes. */
  method PrintNumber(n: int) returns (s: Text)
    requires INT_MIN <= n <= INT_MAX
    ensures s == PrintInt(n)
  {
    DigitsWidth(if n < 0 then -n else n, 10);
    var out := new byte[21];
    StrCpy(out, 0, PrintInt(n));
    s := out[0..|PrintInt(n)|];
  }

  method PrintArray(items: Items, depth: nat, fmt: bool) returns (s: Text)
    requires PrintableItems(items)
    ensures s == Print(Array(items), depth, fmt)
    decreases items, 0
  {
    hide Print, Flat, Sum, Entries, ArrayCosts, ArrayPieces;
    var es: seq<Text> := [];
    var len := 5;
    var child := items;
    ArrayCostsNone(fmt);
    assert es + Entries(child, depth + 1, fmt) == Entries(items, depth + 1, fmt);
    while child.Item?
      invariant PrintableItems(child) && (child == items || child < items)
      invariant es + Entries(child, depth + 1, fmt) == Entries(items, depth + 1, fmt)
      invariant len == 5 + Sum(ArrayCosts(es, fmt))
      decreases child
    {
      var ret := PrintValue(child.value, depth + 1, fmt);
      ArrayCostsSnoc(es, ret, fmt);
      EntriesStep(child, depth + 1, fmt);
      Assoc(es, [ret], Entries(child.more, depth + 1, fmt));
      es := es + [ret];
      len := len + |ret| + 2 + if fmt then 1 else 0;
      child := child.more;
    }
    EntriesStep(child, depth + 1, fmt);
    assert es == es + [];
    s := ComposeArray(es, fmt, len);
    EntriesPrint(items, depth + 1, fmt);
    PrintOfArray(items, depth, fmt);
  }

  lemma ArrayCostsNone(fmt: bool)
    ensures Sum(ArrayCosts([], fmt)) == 0
  {
  }

  lemma ArrayCostsSnoc(es: seq<Text>, e: Text, fmt: bool)
    ensures Sum(ArrayCosts(es + [e], fmt)) == Sum(ArrayCosts(es, fmt)) + |e| + 2 + if fmt then 1 else 0
  {
    SumSnoc(ArrayCosts(es, fmt), |e| + 2 + if fmt then 1 else 0);
    assert ArrayCosts(es + [e], fmt) == ArrayCosts(es, fmt) + [|e| + 2 + if fmt then 1 else 0];
  }

  lemma EntriesStep(items: Items, depth: nat, fmt: bool)
    requires PrintableItems(items)
    ensures Entries(items, depth, fmt) ==
            if items.NoItems? then [] else [Print(items.value, depth, fmt)] + Entries(items.more, depth, fmt)
  {
  }

  method PrintValue(v: Json, depth: nat, fmt: bool) returns (s: Text)
    requires Printable(v)
    ensures s == Print(v, depth, fmt)
    decreases v, 1
  {
    match v
    case Null => s := [110, 117, 108, 108];
    case False => s := [102, 97, 108, 115, 101];
    case True => s := [116, 114, 117, 101];
    case Number(n, _) => s := PrintNumber(n);
    case String(t) => s := PrintStringPtr(t);
    case Array(items) => s := PrintArray(items, depth, fmt);
    case Object(members) => s := PrintObject(members, depth, fmt);
  }

  method PrintObject(members: Members, depth: nat, fmt: bool) returns (s: Text)
    requires PrintableMembers(members)
    ensures s == Print(Object(members), depth, fmt)
    decreases members, 1
  {
    hide Print, Flat, Sum, PrintMembers, MemberCosts, MemberPieces, Names, Values;
    var names, es, len := CollectMembers(members, depth + 1, fmt);
    s := ComposeObject(names, es, depth + 1, fmt, len);
    MembersPrint(members, depth + 1, fmt);
    PrintOfObject(members, depth, fmt);
  }

  /** The first half of print_object; `depth` is already the members' own. */
  method CollectMembers(members: Members, depth: nat, fmt: bool)
    returns (names: seq<Text>, es: seq<Text>, len: nat)
    requires PrintableMembers(members)
    ensures names == Names(members) && es == Values(members, depth, fmt)
    ensures len == 7 + (if fmt then depth else 0) + Sum(MemberCosts(names, es, depth, fmt))
    decreases members, 0
  {
    hide Print, Sum, PrintString, MemberCosts, Names, Values;
    names, es := [], [];
    len := 7 + if fmt then depth else 0;
    var child := members;
    MemberCostsNone(depth, fmt);
    assert names + Names(child) == Names(members);
    assert es + Values(child, depth, fmt) == Values(members, depth, fmt);
    while child.Member?
      invariant PrintableMembers(child) && (child == members || child < members) && |names| == |es|
      invariant names + Names(child) == Names(members)
      invariant es + Values(child, depth, fmt) == Values(members, depth, fmt)
      invariant len == 7 + (if fmt then depth else 0) + Sum(MemberCosts(names, es, depth, fmt))
      decreases child
    {
      var str := PrintStringPtr(child.name);
      var ret := PrintValue(child.value, depth, fmt);
      MemberCostsSnoc(names, es, str, ret, depth, fmt);
      MembersStep(child, depth, fmt);
      Assoc(names, [str], Names(child.more));
      Assoc(es, [ret], Values(child.more, depth, fmt));
      names, es := names + [str], es + [ret];
      len := len + |ret| + |str| + 2 + if fmt then 2 + depth else 0;
      child := child.more;
    }
    MembersStep(child, depth, fmt);
    assert names == names + [] && es == es + [];
  }

  lemma MemberCostsNone(depth: nat, fmt: bool)
    ensures Sum(MemberCosts([], [], depth, fmt)) == 0
  {
  }

  lemma MemberCostsSnoc(names: seq<Text>, es: seq<Text>, n: Text, e: Text, depth: nat, fmt: bool)
    requires |names| == |es|
    ensures Sum(MemberCosts(names + [n], es + [e], depth, fmt)) ==
            Sum(MemberCosts(names, es, depth, fmt)) + |e| + |n| + 2 + if fmt then 2 + depth else 0
  {
    var cost := |e| + |n| + 2 + if fmt then 2 + depth else 0;
    SumSnoc(MemberCosts(names, es, depth, fmt), cost);
    assert MemberCosts(names + [n], es + [e], depth, fmt) == MemberCosts(names, es, depth, fmt) + [cost];
  }

  lemma MembersStep(members: Members, depth: nat, fmt: bool)
    requires PrintableMembers(members)
    ensures Names(members) ==
            if members.NoMembers? then [] else [PrintString(members.name)] + Names(members.more)
    ensures Values(members, depth, fmt) ==
            if members.NoMembers? then [] else [Print(members.value, depth, fmt)] + Values(members.more, depth, fmt)
  {
  }

  lemma PrintOfArray(items: Items, depth: nat, fmt: bool)
    requires PrintableItems(items)
    ensures Print(Array(items), depth, fmt) == [LBRACKET] + PrintItems(items, depth + 1, fmt) + [RBRACKET]
  {
  }

  lemma PrintOfObject(members: Members, depth: nat, fmt: bool)
    requires PrintableMembers(members)
    ensures Print(Object(members), depth, fmt) ==
            [LBRACE] + (if fmt then [NEWLINE] else []) + PrintMembers(members, depth + 1, fmt) +
            (if fmt then Tabs(depth) else []) + [RBRACE]
  {
  }

  lemma {:induction false} DigitsWidth(n: nat, k: nat)
    requires k > 0 && n < Ten(k)
    ensures |Digits(n)| <= k
    decreases k
  {
    if n >= 10 {
      DigitsWidth(n / 10, k - 1);
    }
  }

  function Ten(k: nat): (p: nat)
    ensures p > 0
  {
    if k == 0 then 1 else 10 * Ten(k - 1)
  }
}
