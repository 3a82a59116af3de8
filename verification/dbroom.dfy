/** The room that the files of a database leave for more records: their lengths, and the lengths of the free records. */
module DbRoom {
  import opened Basics
  import opened DbLayout
  import opened DbChains

  /** The lengths of the two files, and of key and data of the free records. */
  datatype Room = Room(idx: nat, dat: nat, free: multiset<(nat, nat)>)

  ghost function Size(recs: seq<Rec>, i: nat): (n: (nat, nat)) {
    if i < |recs| then (|recs[i].key|, recs[i].datlen) else (0, 0)
  }

  ghost function Sizes(recs: seq<Rec>, chain: seq<nat>): (s: seq<(nat, nat)>)
    ensures |s| == |chain| && forall j :: 0 <= j < |s| ==> s[j] == Size(recs, chain[j])
  {
    seq(|chain|, j requires 0 <= j < |chain| => Size(recs, chain[j]))
  }

  ghost function Free(l: Layout): (free: multiset<(nat, nat)>) {
    if l.chains == [] then multiset{} else multiset(Sizes(l.recs, l.chains[0]))
  }

  lemma FreeHas(l: Layout, n: (nat, nat))
    requires Linked(l)
    ensures n in Free(l) <==> exists j :: 0 <= j < |l.chains[0]| && Size(l.recs, l.chains[0][j]) == n
  {
    var s := Sizes(l.recs, l.chains[0]);
    assert n in multiset(s) <==> n in s;
    if n in s {
      var j :| 0 <= j < |s| && s[j] == n;
    }
    if j :| 0 <= j < |l.chains[0]| && Size(l.recs, l.chains[0][j]) == n {
      assert s[j] == n;
    }
  }

  /** The free list is as it was, and so are the lengths of its records. */
  lemma FreeSame(l: Layout, l': Layout)
    requires l.chains != [] && l'.chains != [] && l'.chains[0] == l.chains[0]
    requires forall j :: 0 <= j < |l.chains[0]| ==> Size(l'.recs, l.chains[0][j]) == Size(l.recs, l.chains[0][j])
    ensures Free(l') == Free(l)
  {
    assert Sizes(l'.recs, l'.chains[0]) == Sizes(l.recs, l.chains[0]);
  }

  lemma NotFree(l: Layout, i: nat, j: nat)
    requires Linked(l) && i < |l.recs| && l.home[i] != 0 && j < |l.chains[0]|
    ensures l.chains[0][j] != i && l.chains[0][j] < |l.recs|
  {
    assert l.chains[0][j] in l.chains[0];
  }

  lemma UnlinkSizes(l: Layout, c: nat, k: nat, i: nat)
    requires Linked(l) && c < NHEADS && k < |l.chains[c]|
    ensures Size(Unlink(l, c, k).recs, i) == Size(l.recs, i)
  {
    hide HomesOk;
    assert ChainOk(l.heads, l.recs, l.chains[c], c);
  }

  lemma FreeUnlinkOther(l: Layout, c: nat, k: nat)
    requires Linked(l) && 0 < c < NHEADS && k < |l.chains[c]|
    ensures Free(Unlink(l, c, k)) == Free(l)
  {
    hide Linked;
    var l' := Unlink(l, c, k);
    UnlinkShape(l, c, k);
    forall j | 0 <= j < |l.chains[0]|
      ensures Size(l'.recs, l.chains[0][j]) == Size(l.recs, l.chains[0][j])
    {
      UnlinkSizes(l, c, k, l.chains[0][j]);
    }
    FreeSame(l, l');
  }

  lemma UnlinkShape(l: Layout, c: nat, k: nat)
    requires Linked(l) && c < NHEADS && k < |l.chains[c]|
    ensures |l.chains| == NHEADS && Unlink(l, c, k).chains == l.chains[c := RemoveAt(l.chains[c], k)]
  {
  }

  lemma FreeUnlink(l: Layout, k: nat)
    requires Linked(l) && k < |l.chains[0]|
    ensures Free(Unlink(l, 0, k)) == Free(l) - multiset{Size(l.recs, l.chains[0][k])}
  {
    hide Linked;
    UnlinkShape(l, 0, k);
    var l' := Unlink(l, 0, k);
    var s := Sizes(l.recs, l.chains[0]);
    assert l'.chains[0] == RemoveAt(l.chains[0], k);
    var s' := Sizes(l'.recs, l'.chains[0]);
    forall j {:trigger s'[j]} | 0 <= j < |s'|
      ensures s'[j] == if j < k then s[j] else s[j + 1]
    {
      UnlinkSizes(l, 0, k, l'.chains[0][j]);
    }
    assert |s| == |s'| + 1;
    Cut(s, s', k);
  }

  lemma Cut<T>(s: seq<T>, s': seq<T>, k: nat)
    requires k < |s| == |s'| + 1
    requires forall j {:trigger s'[j]} :: 0 <= j < |s'| ==> s'[j] == if j < k then s[j] else s[j + 1]
    ensures multiset(s') == multiset(s) - multiset{s[k]}
  {
    var a, b := s[..k], s[k + 1..];
    assert s' == a + b;
    assert s == a + ([s[k]] + b);
    Sum(a, [s[k]] + b);
    Sum([s[k]], b);
    Sum(a, b);
  }

  lemma Sum<T>(a: seq<T>, b: seq<T>)
    ensures multiset(a + b) == multiset(a) + multiset(b)
  {
  }

  /** Record i, which is on no chain, is put on the free list. */
  lemma FreePush(l: Layout, i: nat, key: seq<byte>)
    requires Linked(l) && i < |l.recs| && l.home[i] == LIMBO
    ensures Free(Push(l, 0, i, key)) == Free(l) + multiset{(|key|, l.recs[i].datlen)}
  {
    var l' := Push(l, 0, i, key);
    var s := Sizes(l.recs, l.chains[0]);
    forall j | 0 <= j < |s|
      ensures Sizes(l'.recs, l'.chains[0])[j + 1] == s[j]
    {
      NotFree(l, i, j);
    }
    assert Sizes(l'.recs, l'.chains[0]) == [(|key|, l.recs[i].datlen)] + s;
  }

  lemma FreePushLive(l: Layout, c: nat, i: nat, key: seq<byte>)
    requires Linked(l) && 0 < c < NHEADS && i < |l.recs| && l.home[i] == LIMBO
    ensures Free(Push(l, c, i, key)) == Free(l)
  {
    var l' := Push(l, c, i, key);
    forall j | 0 <= j < |l.chains[0]|
      ensures Size(l'.recs, l.chains[0][j]) == Size(l.recs, l.chains[0][j])
    {
      NotFree(l, i, j);
    }
    FreeSame(l, l');
  }

  lemma FreeAppend(l: Layout, c: nat, key: seq<byte>, datoff: nat, datlen: nat)
    requires Linked(l) && 0 < c < NHEADS
    ensures Free(Append(l, c, key, datoff, datlen)) == Free(l)
  {
    assert ChainOk(l.heads, l.recs, l.chains[0], 0);
    FreeSame(l, Append(l, c, key, datoff, datlen));
  }
}
