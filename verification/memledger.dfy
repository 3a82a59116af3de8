/** The ledger of allocated blocks of TCP_C/mem.c. */
module MemLedger {
  import opened Basics

  const BUCKETS: nat := 1024
  const WORD: int := 0x1_0000_0000

  /** An address; 0 is the null pointer. */
  type Addr = nat

  datatype Info = Info(addr: Addr, size: nat)

  /** What a signed 32-bit variable holds of a number. */
  function Int32(x: int): (r: int)
    ensures -0x8000_0000 <= r <= 0x7fff_ffff && (x - r) % 0x1_0000_0000 == 0
  {
    (x + WORD / 2) % WORD - WORD / 2
  }

  lemma Int32Add(x: int, y: int)
    ensures Int32(Int32(x) + y) == Int32(x + y)
  {
    ModAdd(x + WORD / 2, y);
  }

  lemma ModAdd(a: int, b: int)
    ensures (a % WORD + b) % WORD == (a + b) % WORD
  {
    var q := a / WORD;
    assert a + b == a % WORD + b + q * WORD;
    ModMultiple(a % WORD + b, q);
  }

  lemma {:induction false} ModMultiple(x: int, q: int)
    ensures (x + q * WORD) % WORD == x % WORD
  {
  }

  function Bucket(a: Addr): (b: nat)
    ensures b < BUCKETS
  {
    a % BUCKETS
  }

  // ---------- buckets

  function Sum(infos: seq<Info>): (n: nat)
    decreases |infos|
  {
    if infos == [] then 0 else infos[0].size + Sum(infos[1..])
  }

  lemma {:induction false} SumConcat(a: seq<Info>, b: seq<Info>)
    ensures Sum(a + b) == Sum(a) + Sum(b)
    decreases |a|
  {
    if a == [] {
      assert a + b == b;
    } else {
      assert (a + b)[1..] == a[1..] + b;
      SumConcat(a[1..], b);
    }
  }

  function Without(infos: seq<Info>, i: nat): (r: seq<Info>)
    requires i < |infos|
  {
    infos[..i] + infos[i + 1..]
  }

  lemma SumSplit(infos: seq<Info>, i: nat)
    requires i < |infos|
    ensures Sum(infos) == Sum(infos[..i]) + infos[i].size + Sum(infos[i + 1..])
  {
    assert infos == infos[..i] + infos[i..];
    SumConcat(infos[..i], infos[i..]);
    assert infos[i..][1..] == infos[i + 1..];
  }

  lemma SumWithout(infos: seq<Info>, i: nat)
    requires i < |infos|
    ensures Sum(Without(infos, i)) == Sum(infos) - infos[i].size
  {
    hide Sum;
    SumSplit(infos, i);
    SumConcat(infos[..i], infos[i + 1..]);
  }

  /** All the records together. */
  function Total(table: seq<seq<Info>>): (n: nat)
    decreases |table|
  {
    if table == [] then 0 else Sum(table[0]) + Total(table[1..])
  }

  lemma {:induction false} TotalUpdate(table: seq<seq<Info>>, b: nat, infos: seq<Info>)
    requires b < |table|
    ensures Total(table[b := infos]) == Total(table) - Sum(table[b]) + Sum(infos)
    decreases |table|
  {
    if b == 0 {
      assert table[b := infos][1..] == table[1..];
    } else {
      assert table[b := infos][1..] == table[1..][b - 1 := infos];
      TotalUpdate(table[1..], b - 1, infos);
    }
  }

  /** The bucket has exactly the live blocks that hash to it, each once, with their sizes. */
  ghost predicate BucketOk(infos: seq<Info>, b: nat, live: map<Addr, nat>) {
    && (forall i, j :: 0 <= i < j < |infos| ==> infos[i].addr != infos[j].addr)
    && (forall i :: 0 <= i < |infos| ==>
          Bucket(infos[i].addr) == b && infos[i].addr in live && live[infos[i].addr] == infos[i].size)
    && (forall a :: a in live && Bucket(a) == b ==> Info(a, live[a]) in infos)
  }

  ghost predicate TableOk(table: seq<seq<Info>>, live: map<Addr, nat>) {
    |table| == BUCKETS && forall b :: 0 <= b < BUCKETS ==> BucketOk(table[b], b, live)
  }

  /** A record entered for a block that is not live. */
  lemma Entered(table: seq<seq<Info>>, live: map<Addr, nat>, a: Addr, size: nat)
    requires TableOk(table, live) && a !in live
    ensures var b := Bucket(a);
            var t := table[b := [Info(a, size)] + table[b]];
            TableOk(t, live[a := size]) && Total(t) == Total(table) + size
  {
    hide Sum, Total;
    var b := Bucket(a);
    assert BucketOk(table[b], b, live);
    BucketEntered(table[b], b, live, a, size);
    TotalUpdate(table, b, [Info(a, size)] + table[b]);
    SumEntered(table[b], Info(a, size));
    forall c | 0 <= c < BUCKETS && c != b
      ensures BucketOk(table[c], c, live[a := size])
    {
      assert BucketOk(table[c], c, live);
    }
  }

  lemma BucketEntered(infos: seq<Info>, b: nat, live: map<Addr, nat>, a: Addr, size: nat)
    requires BucketOk(infos, b, live) && a !in live && Bucket(a) == b
    ensures BucketOk([Info(a, size)] + infos, b, live[a := size])
  {
    hide Bucket;
    var r := [Info(a, size)] + infos;
    assert r[0] == Info(a, size);
    forall x | x in live && Bucket(x) == b
      ensures Info(x, live[x]) in r
    {
      assert Info(x, live[x]) in infos;
    }
  }

  lemma SumEntered(infos: seq<Info>, x: Info)
    ensures Sum([x] + infos) == Sum(infos) + x.size
  {
    assert ([x] + infos)[1..] == infos;
  }

  lemma WithoutElements(infos: seq<Info>, i: nat)
    requires i < |infos|
    ensures forall x :: x in infos && x != infos[i] ==> x in Without(infos, i)
  {
    forall x | x in infos && x != infos[i]
      ensures x in Without(infos, i)
    {
      var j :| 0 <= j < |infos| && infos[j] == x;
      assert Without(infos, i)[if j < i then j else j - 1] == x;
    }
  }

  lemma BucketWithout(infos: seq<Info>, b: nat, live: map<Addr, nat>, i: nat)
    requires BucketOk(infos, b, live) && i < |infos|
    ensures BucketOk(Without(infos, i), b, live - {infos[i].addr})
  {
    hide Bucket;
    WithoutElements(infos, i);
  }

  /** A record taken out, and the block no longer live. */
  lemma TakenOut(table: seq<seq<Info>>, live: map<Addr, nat>, a: Addr, i: nat)
    requires TableOk(table, live) && i < |table[Bucket(a)]| && table[Bucket(a)][i].addr == a
    ensures var b := Bucket(a);
            var t := table[b := Without(table[b], i)];
            a in live && table[b][i].size == live[a] && TableOk(t, live - {a}) && Total(t) == Total(table) - live[a]
  {
    hide Without, Sum, Total;
    var b := Bucket(a);
    var infos := Without(table[b], i);
    assert BucketOk(table[b], b, live);
    BucketWithout(table[b], b, live, i);
    TotalUpdate(table, b, infos);
    SumWithout(table[b], i);
    forall c | 0 <= c < BUCKETS && c != b
      ensures BucketOk(table[c], c, live - {a})
    {
      assert BucketOk(table[c], c, live);
    }
  }

  /** A record whose size changes in place. */
  lemma Resized(table: seq<seq<Info>>, live: map<Addr, nat>, a: Addr, i: nat, size: nat)
    requires TableOk(table, live) && i < |table[Bucket(a)]| && table[Bucket(a)][i].addr == a
    ensures var b := Bucket(a);
            var t := table[b := table[b][i := Info(a, size)]];
            a in live && TableOk(t, live[a := size]) && Total(t) == Total(table) - live[a] + size
  {
    hide Sum, Total;
    var b := Bucket(a);
    var infos := table[b][i := Info(a, size)];
    assert BucketOk(table[b], b, live);
    BucketResized(table[b], b, live, i, size);
    TotalUpdate(table, b, infos);
    SumResized(table[b], i, size);
    forall c | 0 <= c < BUCKETS && c != b
      ensures BucketOk(table[c], c, live[a := size])
    {
      assert BucketOk(table[c], c, live);
    }
  }

  lemma BucketResized(infos: seq<Info>, b: nat, live: map<Addr, nat>, i: nat, size: nat)
    requires BucketOk(infos, b, live) && i < |infos|
    ensures BucketOk(infos[i := Info(infos[i].addr, size)], b, live[infos[i].addr := size])
  {
    hide Bucket;
    var a, r := infos[i].addr, infos[i := Info(infos[i].addr, size)];
    forall x | x in live[a := size] && Bucket(x) == b
      ensures Info(x, live[a := size][x]) in r
    {
      if x == a {
        assert r[i] == Info(a, size);
      } else {
        var j :| 0 <= j < |infos| && infos[j] == Info(x, live[x]);
        assert r[j] == infos[j];
      }
    }
  }

  lemma SumResized(infos: seq<Info>, i: nat, size: nat)
    requires i < |infos|
    ensures Sum(infos[i := Info(infos[i].addr, size)]) == Sum(infos) - infos[i].size + size
  {
    hide Sum;
    var x := Info(infos[i].addr, size);
    SumSplit(infos, i);
    SumSplit(infos[i := x], i);
    assert infos[i := x][..i] == infos[..i] && infos[i := x][i + 1..] == infos[i + 1..];
  }

  /** The records of an exact table are the live blocks: their sizes add up to the same. */
  lemma {:induction false} TotalIsSum(table: seq<seq<Info>>, live: map<Addr, nat>)
    requires TableOk(table, live)
    ensures Total(table) == SumOf(live)
    decreases |live|
  {
    hide Total, SumOf, Without;
    if live == map[] {
      NothingLive(table);
    } else {
      var a :| a in live;
      var b := Bucket(a);
      assert BucketOk(table[b], b, live);
      var i :| 0 <= i < |table[b]| && table[b][i] == Info(a, live[a]);
      TakenOut(table, live, a, i);
      TotalIsSum(table[b := Without(table[b], i)], live - {a});
      SumOfTake(live, a);
    }
  }

  function FirstAddr(infos: seq<Info>): (a: Addr) {
    if infos == [] then 0 else infos[0].addr
  }

  lemma NothingLive(table: seq<seq<Info>>)
    requires TableOk(table, map[])
    ensures Total(table) == 0 == SumOf(map[])
  {
    var none: map<Addr, nat> := map[];
    forall b | 0 <= b < BUCKETS
      ensures table[b] == []
    {
      assert BucketOk(table[b], b, none);
      assert table[b] != [] ==> FirstAddr(table[b]) in none;
    }
    EmptyTotal(table);
  }

  class Ledger {
    var table: seq<seq<Info>>
    var total: int
    ghost var live: map<Addr, nat>

    /** Each live block has one record, in its bucket, and total_mem_size is the sum of the sizes of the live blocks,
        as far as 32 bits hold it. */
    ghost predicate Valid()
      reads this
    {
      TableOk(table, live) && total == Int32(SumOf(live))
    }

    /** wys_mem_init */
    constructor ()
      ensures Valid() && live == map[]
    {
      table := seq(BUCKETS, _ => []);
      total := 0;
      live := map[];
    }

    /** _find_hash: the position of the record in its bucket. */
    method FindHash(a: Addr) returns (r: Option<nat>)
      requires Valid()
      ensures r.Some? <==> a in live
      ensures r.Some? ==> r.value < |table[Bucket(a)]| && table[Bucket(a)][r.value] == Info(a, live[a])
    {
      ghost var b := Bucket(a);
      assert BucketOk(table[b], b, live);
      for i := 0 to |table[Bucket(a)]|
        invariant forall j :: 0 <= j < i ==> table[b][j].addr != a
      {
        if table[Bucket(a)][i].addr == a {
          return Some(i);
        }
      }
      return None;
    }

    method Enter(a: Addr, size: nat)
      requires Valid() && a !in live
      modifies this
      ensures Valid() && live == old(live)[a := size]
    {
      hide BucketOk, Total, Int32, SumOf;
      Entered(table, live, a, size);
      TotalIsSum(table, live);
      TotalIsSum(table[Bucket(a) := [Info(a, size)] + table[Bucket(a)]], live[a := size]);
      Int32Add(Total(table), size);
      total := Int32(total + size);
      table := table[Bucket(a) := [Info(a, size)] + table[Bucket(a)]];
      live := live[a := size];
    }

    method TakeOut(a: Addr, i: nat)
      requires Valid() && i < |table[Bucket(a)]| && table[Bucket(a)][i].addr == a
      modifies this
      ensures Valid() && a in old(live) && live == old(live) - {a}
    {
      hide BucketOk, Total, Int32, Without, SumOf;
      TakenOut(table, live, a, i);
      TotalIsSum(table, live);
      TotalIsSum(table[Bucket(a) := Without(table[Bucket(a)], i)], live - {a});
      var size: int := table[Bucket(a)][i].size;
      Int32Add(Total(table), 0 - size);
      total := Int32(total - size);
      table := table[Bucket(a) := Without(table[Bucket(a)], i)];
      live := live - {a};
    }

    /** _malloc; `block` is what the allocator returns, `info` whether it has room for the record. */
    method Malloc(size: nat, block: Option<Addr>, info: bool) returns (r: Addr)
      requires Valid() && (block.Some? ==> block.value != 0 && block.value !in live)
      modifies this
      ensures Valid()
      ensures if block.Some? && info then r == block.value && live == old(live)[r := size]
              else r == 0 && live == old(live)
    {
      if block.None? || !info {
        return 0;
      }
      Enter(block.value, size);
      r := block.value;
    }

    /** _free, also of a null pointer and of one that is not live. */
    method Free(ptr: Addr)
      requires Valid()
      modifies this
      ensures Valid() && live == if ptr == 0 then old(live) else old(live) - {ptr}
    {
      if ptr != 0 {
        var i := FindHash(ptr);
        if i.Some? {
          TakeOut(ptr, i.value);
        }
      }
    }

    /** _realloc; `block` is what realloc returns. */
    method Realloc(ptr: Addr, size: nat, block: Option<Addr>, info: bool) returns (r: Addr)
      requires Valid() && (ptr != 0 && size == 0 ==> ptr in live)
      requires block.Some? ==> block.value != 0 && (block.value == ptr || block.value !in live)
      modifies this
      ensures Valid()
      ensures if ptr == 0 then
                if block.Some? && info then r == block.value && live == old(live)[r := size] else r == 0 && live == old(live)
              else if size == 0 then r == 0 && live == old(live) - {ptr}
              else if ptr !in old(live) then r == 0 && live == old(live)
              else if old(live)[ptr] == size then r == ptr && live == old(live)
              else if block.None? then r == 0 && live == old(live) - {ptr}
              else r == block.value && live == (old(live) - {ptr})[block.value := size]
    {
      if ptr == 0 {
        r := Malloc(size, block, info);
        return;
      }
      var i := FindHash(ptr);
      if size == 0 {
        TakeOut(ptr, i.value);
        return 0;
      }
      if i.None? {
        return 0;
      }
      if table[Bucket(ptr)][i.value].size == size {
        return ptr;
      }
      if block.None? {
        TakeOut(ptr, i.value);
        return 0;
      }
      Move(ptr, i.value, block.value, size);
      r := block.value;
    }

    /** The record of a block that realloc has resized, in place or elsewhere. */
    method Move(ptr: Addr, i: nat, addr: Addr, size: nat)
      requires Valid() && i < |table[Bucket(ptr)]| && table[Bucket(ptr)][i].addr == ptr
      requires addr == ptr || addr !in live
      modifies this
      ensures Valid() && live == (old(live) - {ptr})[addr := size]
    {
      hide BucketOk, Total, Int32, Without, SumOf;
      TotalIsSum(table, live);
      var was: int := table[Bucket(ptr)][i].size;
      TakenOut(table, live, ptr, i);
      Int32Add(Total(table), size - was);
      total := Int32(total + (size - was));
      if addr == ptr {
        Resized(table, live, ptr, i, size);
        table := table[Bucket(ptr) := table[Bucket(ptr)][i := Info(ptr, size)]];
        assert (live - {ptr})[ptr := size] == live[ptr := size];
      } else {
        table := table[Bucket(ptr) := Without(table[Bucket(ptr)], i)];
        Entered(table, live - {ptr}, addr, size);
        table := table[Bucket(addr) := [Info(addr, size)] + table[Bucket(addr)]];
      }
      live := (live - {ptr})[addr := size];
      TotalIsSum(table, live);
    }
  }

  lemma {:induction false} EmptyTotal(table: seq<seq<Info>>)
    requires forall b :: 0 <= b < |table| ==> table[b] == []
    ensures Total(table) == 0
    decreases |table|
  {
    if table != [] {
      EmptyTotal(table[1..]);
    }
  }
}
