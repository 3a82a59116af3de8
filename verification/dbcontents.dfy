/** What the two files of the database mean: a map from keys to data. */
module DbContents {
  import opened Basics
  import opened DbFormat
  import opened DbLayout
  import opened DbChains

  type Key = seq<byte>
  type Data = seq<byte>

  const NHASH: nat := 137

  /** The sum of the characters times their position, with the sign of a C char, in 64 bits. */
  function HashSum(key: Key): (h: nat)
    decreases |key|
  {
    if key == [] then 0
    else
      var n := |key|;
      var c: int := if key[n - 1] < 128 then key[n - 1] else (key[n - 1] as int) - 256;
      (HashSum(key[..n - 1]) + c * n) % 0x1_0000_0000_0000_0000
  }

  function Hash(key: Key): (h: nat)
    ensures h < NHASH
  {
    HashSum(key) % NHASH
  }

  lemma {:induction false} ZerosSum(n: nat)
    ensures HashSum(seq(n, _ => 0)) == 0
  {
    if n > 0 {
      ZerosSum(n - 1);
      assert seq<byte>(n, _ => 0)[..n - 1] == seq(n - 1, _ => 0);
    }
  }

  /** The next value of a C char, the one above -1 being 0. */
  function Raised(b: byte): (c: byte) {
    if b == 255 then 0 else b + 1
  }

  lemma SumOne(key: Key, c: int)
    requires key != [] && c == if key[|key| - 1] < 128 then key[|key| - 1] else (key[|key| - 1] as int) - 256
    ensures HashSum(key) == (HashSum(key[..|key| - 1]) + c * |key|) % 0x1_0000_0000_0000_0000
  {
  }

  lemma AddModulo(x: int, a: int)
    ensures (x % 0x1_0000_0000_0000_0000 + a) % 0x1_0000_0000_0000_0000 == (x + a) % 0x1_0000_0000_0000_0000
  {
  }

  /** The law of the hash, which with ZerosSum determines it: raising the i-th character, counted from 1, by one adds i.
      Characters are signed, and 127 is the largest. */
  lemma {:induction false} RaisedSum(key: Key, i: nat)
    requires i < |key| && key[i] != 127
    ensures HashSum(key[i := Raised(key[i])]) == (HashSum(key) + i + 1) % 0x1_0000_0000_0000_0000
    decreases |key|
  {
    hide HashSum;
    var n := |key|;
    var raised := key[i := Raised(key[i])];
    var c: int := if key[n - 1] < 128 then key[n - 1] else (key[n - 1] as int) - 256;
    var h, p := HashSum(key[..n - 1]), c * n;
    SumOne(key, c);
    AddModulo(h + p, i + 1);
    if i == n - 1 {
      assert raised[..n - 1] == key[..n - 1];
      SumOne(raised, c + 1);
      OneMoreTimes(c, n);
    } else {
      RaisedSum(key[..n - 1], i);
      assert raised[..n - 1] == key[..n - 1][i := Raised(key[i])];
      SumOne(raised, c);
      AddModulo(h + i + 1, p);
    }
  }

  lemma OneMoreTimes(c: int, n: int)
    ensures (c + 1) * n == c * n + n
  {
  }

  /** A record on a hash chain. */
  ghost predicate Live(l: Layout, i: nat)
    requires i < |l.home|
  {
    0 < l.home[i] < LIMBO
  }

  ghost function Value(r: Rec, dat: seq<byte>): (d: Data)
    requires 1 <= r.datlen && r.datoff + r.datlen <= |dat|
  {
    dat[r.datoff..r.datoff + r.datlen - 1]
  }

  ghost predicate DataAt(r: Rec, dat: seq<byte>) {
    1 <= r.datlen && r.datoff + r.datlen <= |dat| && dat[r.datoff + r.datlen - 1] == NEWLINE
  }

  ghost predicate Apart(r: Rec, s: Rec) {
    r.datoff + r.datlen <= s.datoff || s.datoff + s.datlen <= r.datoff
  }

  /** Live records are on the chain of their key's hash, free ones have a blank key. */
  ghost predicate KeysOk(l: Layout) {
    && |l.home| == |l.recs|
    && (forall i :: 0 <= i < |l.recs| && Live(l, i) ==> l.home[i] == 1 + Hash(l.recs[i].key))
    && (forall i :: 0 <= i < |l.recs| && l.home[i] == 0 ==> l.recs[i].key == Blanks(|l.recs[i].key|))
    && (forall i, j :: 0 <= i < j < |l.recs| && Live(l, i) && Live(l, j) ==> l.recs[i].key != l.recs[j].key)
  }

  /** The data of the records, of the free ones too, do not overlap. */
  ghost predicate DataOk(recs: seq<Rec>, dat: seq<byte>) {
    && (forall i :: 0 <= i < |recs| ==> DataAt(recs[i], dat))
    && (forall i, j :: 0 <= i < j < |recs| ==> Apart(recs[i], recs[j]))
  }

  /** m is the map that the live records spell out. */
  ghost predicate Means(l: Layout, dat: seq<byte>, m: map<Key, Data>)
    requires |l.home| == |l.recs| && DataOk(l.recs, dat)
  {
    && (forall i :: 0 <= i < |l.recs| && Live(l, i) ==> l.recs[i].key in m && m[l.recs[i].key] == Value(l.recs[i], dat))
    && (forall k :: k in m ==> exists i :: 0 <= i < |l.recs| && Live(l, i) && l.recs[i].key == k)
  }

  ghost predicate Good(l: Layout, dat: seq<byte>, m: map<Key, Data>) {
    Linked(l) && KeysOk(l) && DataOk(l.recs, dat) && Means(l, dat, m)
  }

  ghost predicate NoneInLimbo(l: Layout) {
    forall i :: 0 <= i < |l.home| ==> l.home[i] < LIMBO
  }

  /** l' has the records and homes of l but for chain pointers and for record i. */
  ghost predicate SameBut(l: Layout, l': Layout, i: nat) {
    && |l.home| == |l.recs| == |l'.recs| == |l'.home| && i < |l.recs|
    && l'.recs[i].datoff == l.recs[i].datoff && l'.recs[i].datlen == l.recs[i].datlen
    && forall j :: 0 <= j < |l.recs| && j != i ==>
         l'.home[j] == l.home[j] && l'.recs[j].key == l.recs[j].key
         && l'.recs[j].datoff == l.recs[j].datoff && l'.recs[j].datlen == l.recs[j].datlen
  }

  lemma UnlinkSameBut(l: Layout, c: nat, k: nat)
    requires Linked(l) && c < NHEADS && k < |l.chains[c]|
    ensures var i, l' := l.chains[c][k], Unlink(l, c, k);
            SameBut(l, l', i) && l.home[i] == c && l'.home[i] == LIMBO && l'.recs[i].key == l.recs[i].key
  {
    ChainNoRepeats(l, c);
    assert l.chains[c][k] in l.chains[c];
  }

  lemma DataSameBut(l: Layout, l': Layout, i: nat, dat: seq<byte>)
    requires SameBut(l, l', i) && DataOk(l.recs, dat)
    ensures DataOk(l'.recs, dat)
  {
    forall j | 0 <= j < |l.recs|
      ensures l'.recs[j].datoff == l.recs[j].datoff && l'.recs[j].datlen == l.recs[j].datlen
    {
    }
    forall j, k | 0 <= j < k < |l.recs|
      ensures Apart(l'.recs[j], l'.recs[k])
    {
      assert Apart(l.recs[j], l.recs[k]);
    }
  }

  /** Record i stops being live, if it was. */
  lemma MeansWithout(l: Layout, l': Layout, i: nat, dat: seq<byte>, m: map<Key, Data>)
    requires SameBut(l, l', i) && DataOk(l.recs, dat) && DataOk(l'.recs, dat) && KeysOk(l) && Means(l, dat, m)
    requires !Live(l', i)
    ensures Means(l', dat, if Live(l, i) then m - {l.recs[i].key} else m)
  {
    hide Hash;
    var m' := if Live(l, i) then m - {l.recs[i].key} else m;
    forall x | x in m'
      ensures exists j :: 0 <= j < |l'.recs| && Live(l', j) && l'.recs[j].key == x
    {
      var j :| 0 <= j < |l.recs| && Live(l, j) && l.recs[j].key == x;
      assert Live(l', j) && l'.recs[j].key == x;
    }
    forall j | 0 <= j < |l'.recs| && Live(l', j)
      ensures l'.recs[j].key in m' && m'[l'.recs[j].key] == Value(l'.recs[j], dat)
    {
      assert Live(l, j) && j != i;
      assert Value(l'.recs[j], dat) == Value(l.recs[j], dat);
    }
  }

  /** Record i, not live before, becomes live with a key that the map does not have. */
  lemma MeansWith(l: Layout, l': Layout, i: nat, dat: seq<byte>, m: map<Key, Data>)
    requires SameBut(l, l', i) && DataOk(l.recs, dat) && DataOk(l'.recs, dat) && Means(l, dat, m)
    requires !Live(l, i) && Live(l', i) && l'.recs[i].key !in m
    ensures Means(l', dat, m[l'.recs[i].key := Value(l'.recs[i], dat)])
  {
    var m' := m[l'.recs[i].key := Value(l'.recs[i], dat)];
    forall x | x in m'
      ensures exists j :: 0 <= j < |l'.recs| && Live(l', j) && l'.recs[j].key == x
    {
      if x != l'.recs[i].key {
        var j :| 0 <= j < |l.recs| && Live(l, j) && l.recs[j].key == x;
        assert Live(l', j) && l'.recs[j].key == x;
      }
    }
    forall j | 0 <= j < |l'.recs| && Live(l', j)
      ensures l'.recs[j].key in m' && m'[l'.recs[j].key] == Value(l'.recs[j], dat)
    {
      if j != i {
        assert Live(l, j);
        assert Value(l'.recs[j], dat) == Value(l.recs[j], dat);
      }
    }
  }

  /** Unlinking a record takes its key out of the map; unlinking a free record changes nothing. */
  lemma GoodUnlink(l: Layout, dat: seq<byte>, m: map<Key, Data>, c: nat, k: nat)
    requires Good(l, dat, m) && c < NHEADS && k < |l.chains[c]|
    ensures var i := l.chains[c][k];
            i < |l.recs| && Good(Unlink(l, c, k), dat, if c == 0 then m else m - {l.recs[i].key})
  {
    hide HomesOk, ChainOk, Unlink, Hash, DataOk, Means;
    UnlinkKeeps(l, c, k);
    UnlinkSameBut(l, c, k);
    var i, l' := l.chains[c][k], Unlink(l, c, k);
    DataSameBut(l, l', i, dat);
    MeansWithout(l, l', i, dat, m);
  }

  lemma ApartUnchanged(r: Rec, dat: seq<byte>, off: nat, b: seq<byte>)
    requires DataAt(r, dat) && off + |b| <= |dat| && (r.datoff + r.datlen <= off || off + |b| <= r.datoff)
    ensures DataAt(r, Overwrite(dat, off, b)) && Value(r, Overwrite(dat, off, b)) == Value(r, dat)
  {
    hide Overwrite;
    var lo, hi := r.datoff, r.datoff + r.datlen;
    OverwriteElsewhere(dat, off, b, lo, hi);
    OverwriteElsewhere(dat, off, b, lo, hi - 1);
    assert Overwrite(dat, off, b)[hi - 1] == Overwrite(dat, off, b)[lo..hi][hi - lo - 1] == dat[lo..hi][hi - lo - 1];
  }

  lemma DataOverwritten(recs: seq<Rec>, dat: seq<byte>, i: nat, data: Data)
    requires DataOk(recs, dat) && i < |recs| && |data| + 1 == recs[i].datlen
    ensures var dat' := Overwrite(dat, recs[i].datoff, data + [NEWLINE]);
            && DataOk(recs, dat') && Value(recs[i], dat') == data
            && forall j :: 0 <= j < |recs| && j != i ==> Value(recs[j], dat') == Value(recs[j], dat)
  {
    hide Overwrite;
    var off, b := recs[i].datoff, data + [NEWLINE];
    var dat' := Overwrite(dat, off, b);
    OverwriteHere(dat, off, b);
    SubSlice(dat', off, off + |b|, 0, |data|);
    assert dat'[off + |data|] == dat'[off..off + |b|][|data|] == NEWLINE;
    forall j | 0 <= j < |recs| && j != i
      ensures DataAt(recs[j], dat') && Value(recs[j], dat') == Value(recs[j], dat)
    {
      assert Apart(recs[if i < j then i else j], recs[if i < j then j else i]);
      ApartUnchanged(recs[j], dat, off, b);
    }
  }

  /** Writing over the data of a record, with data of the same length, changes the value of its key only. */
  lemma GoodWriteDat(l: Layout, dat: seq<byte>, m: map<Key, Data>, i: nat, data: Data)
    requires Good(l, dat, m) && i < |l.recs| && |data| + 1 == l.recs[i].datlen
    ensures l.recs[i].datoff + l.recs[i].datlen <= |dat| && i < |l.home|
    ensures var dat' := Overwrite(dat, l.recs[i].datoff, data + [NEWLINE]);
            && Good(l, dat', if Live(l, i) then m[l.recs[i].key := data] else m)
            && DataAt(l.recs[i], dat') && Value(l.recs[i], dat') == data
  {
    hide Linked, Hash, Value, Overwrite;
    assert DataAt(l.recs[i], dat);
    DataOverwritten(l.recs, dat, i, data);
    var dat' := Overwrite(dat, l.recs[i].datoff, data + [NEWLINE]);
    var m' := if Live(l, i) then m[l.recs[i].key := data] else m;
    forall x | x in m'
      ensures exists j :: 0 <= j < |l.recs| && Live(l, j) && l.recs[j].key == x
    {
      assert x in m;
    }
  }

  lemma PushSameBut(l: Layout, c: nat, i: nat, key: Key)
    requires Linked(l) && c < NHEADS && i < |l.recs|
    ensures SameBut(l, Push(l, c, i, key), i)
  {
  }

  /** A record on no chain, with a blank key, goes to the free list. */
  lemma GoodPushFree(l: Layout, dat: seq<byte>, m: map<Key, Data>, i: nat)
    requires Good(l, dat, m) && i < |l.recs| && l.home[i] == LIMBO
    ensures Good(Push(l, 0, i, Blanks(|l.recs[i].key|)), dat, m)
  {
    hide HomesOk, ChainOk, Hash, DataOk, Means;
    var key := Blanks(|l.recs[i].key|);
    PushKeeps(l, 0, i, key);
    PushSameBut(l, 0, i, key);
    var l' := Push(l, 0, i, key);
    DataSameBut(l, l', i, dat);
    MeansWithout(l, l', i, dat, m);
  }

  /** A key that the map has is the key of a live record. */
  lemma KeyNotLive(l: Layout, dat: seq<byte>, m: map<Key, Data>, key: Key, i: nat)
    requires |l.home| == |l.recs| && DataOk(l.recs, dat) && Means(l, dat, m) && key !in m && i < |l.recs| && Live(l, i)
    ensures l.recs[i].key != key
  {
  }

  /** A record on no chain goes to the front of its new key's hash chain. */
  lemma GoodPushLive(l: Layout, dat: seq<byte>, m: map<Key, Data>, i: nat, key: Key)
    requires Good(l, dat, m) && i < |l.recs| && l.home[i] == LIMBO && |key| == |l.recs[i].key| && key !in m
    ensures DataAt(l.recs[i], dat)
    ensures Good(Push(l, 1 + Hash(key), i, key), dat, m[key := Value(l.recs[i], dat)])
  {
    hide HomesOk, ChainOk, Hash, Means;
    var c := 1 + Hash(key);
    PushKeeps(l, c, i, key);
    PushSameBut(l, c, i, key);
    var l' := Push(l, c, i, key);
    DataSameBut(l, l', i, dat);
    MeansWith(l, l', i, dat, m);
    forall j | 0 <= j < |l.recs| && j != i && Live(l', j)
      ensures l'.recs[j].key != key
    {
      KeyNotLive(l, dat, m, key, j);
    }
  }

  lemma DataAppended(recs: seq<Rec>, dat: seq<byte>, r: Rec, data: Data)
    requires DataOk(recs, dat) && r.datoff == |dat| && r.datlen == |data| + 1
    ensures var dat' := dat + data + [NEWLINE];
            && DataOk(recs + [r], dat') && Value(r, dat') == data
            && forall j :: 0 <= j < |recs| ==> Value(recs[j], dat') == Value(recs[j], dat)
  {
    var recs', dat' := recs + [r], dat + data + [NEWLINE];
    forall j | 0 <= j < |recs|
      ensures DataAt(recs'[j], dat') && Value(recs[j], dat') == Value(recs[j], dat)
    {
      assert DataAt(recs[j], dat);
    }
    forall i, j | 0 <= i < j < |recs'|
      ensures Apart(recs'[i], recs'[j])
    {
      assert DataAt(recs[i], dat);
      assert j < |recs| ==> Apart(recs[i], recs[j]);
    }
  }

  lemma KeysAppended(l: Layout, dat: seq<byte>, m: map<Key, Data>, key: Key, datoff: nat, datlen: nat)
    requires Linked(l) && KeysOk(l) && DataOk(l.recs, dat) && Means(l, dat, m) && key !in m
    ensures KeysOk(Append(l, 1 + Hash(key), key, datoff, datlen))
  {
    hide HomesOk, ChainOk, Hash, Means;
    var l' := Append(l, 1 + Hash(key), key, datoff, datlen);
    forall j | 0 <= j < |l.recs| && Live(l', j)
      ensures l'.recs[j].key != key
    {
      KeyNotLive(l, dat, m, key, j);
    }
  }

  lemma MeansAppended(l: Layout, dat: seq<byte>, m: map<Key, Data>, key: Key, data: Data, dat': seq<byte>)
    requires Linked(l) && DataOk(l.recs, dat) && Means(l, dat, m) && key !in m
    requires var l' := Append(l, 1 + Hash(key), key, |dat|, |data| + 1);
             && DataOk(l'.recs, dat') && Value(l'.recs[|l.recs|], dat') == data
             && forall j :: 0 <= j < |l.recs| ==> Value(l'.recs[j], dat') == Value(l.recs[j], dat)
    ensures |l.home| == |l.recs|
    ensures Means(Append(l, 1 + Hash(key), key, |dat|, |data| + 1), dat', m[key := data])
  {
    hide HomesOk, ChainOk, Hash, Value;
    var l' := Append(l, 1 + Hash(key), key, |dat|, |data| + 1);
    var n, m' := |l.recs|, m[key := data];
    assert |l.home| == n by {
      HomesSize(l);
    }
    forall x | x in m'
      ensures exists j :: 0 <= j < |l'.recs| && Live(l', j) && l'.recs[j].key == x
    {
      if x != key {
        var j :| 0 <= j < |l.recs| && Live(l, j) && l.recs[j].key == x;
        assert Live(l', j) && l'.recs[j].key == x;
      } else {
        assert Live(l', n) && l'.recs[n].key == x;
      }
    }
    forall j | 0 <= j < |l'.recs| && Live(l', j)
      ensures l'.recs[j].key in m' && m'[l'.recs[j].key] == Value(l'.recs[j], dat')
    {
      if j < n {
        assert Live(l, j) && l'.recs[j] == l.recs[j];
      }
    }
  }

  lemma HomesSize(l: Layout)
    requires Linked(l)
    ensures |l.home| == |l.recs|
  {
  }

  /** A new record is appended to both files and goes to the front of its key's hash chain. */
  lemma GoodAppend(l: Layout, dat: seq<byte>, m: map<Key, Data>, key: Key, data: Data)
    requires Good(l, dat, m) && key !in m
    ensures Good(Append(l, 1 + Hash(key), key, |dat|, |data| + 1), dat + data + [NEWLINE], m[key := data])
  {
    hide HomesOk, ChainOk, Hash, Value, DataOk, Means, KeysOk;
    var c := 1 + Hash(key);
    AppendKeeps(l, c, key, |dat|, |data| + 1);
    DataAppended(l.recs, dat, Append(l, c, key, |dat|, |data| + 1).recs[|l.recs|], data);
    KeysAppended(l, dat, m, key, |dat|, |data| + 1);
    HomesSize(l);
    MeansAppended(l, dat, m, key, data, dat + data + [NEWLINE]);
  }
}
