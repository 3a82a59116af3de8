/** The index file as a table of chain heads followed by records, and its bytes. */
module DbLayout {
  import opened Basics
  import opened DbFormat

  /** The free list's head and the heads of the 137 hash chains. */
  const NHEADS: nat := 138
  /** Where the records start: after the heads and a newline. */
  const START: nat := 967

  datatype Rec = Rec(ptr: nat, key: seq<byte>, datoff: nat, datlen: nat)

  function BodyLen(r: Rec): (n: nat) {
    |Body(r.key, r.datoff, r.datlen)|
  }

  function EncLen(r: Rec): (n: nat) {
    PTR_SZ + IDXLEN_SZ + BodyLen(r)
  }

  function Encode(r: Rec): (s: seq<byte>) {
    Pad(PTR_SZ, r.ptr) + Pad(IDXLEN_SZ, BodyLen(r)) + Body(r.key, r.datoff, r.datlen)
  }

  predicate RecOk(r: Rec) {
    && r.ptr <= PTR_MAX && IDXLEN_MIN <= BodyLen(r) <= IDXLEN_MAX
    && SEP !in r.key && DATLEN_MIN <= r.datlen <= DATLEN_MAX
  }

  lemma EncodeLength(r: Rec)
    requires RecOk(r)
    ensures |Encode(r)| == EncLen(r)
    ensures Encode(r)[..7] == Pad(PTR_SZ, r.ptr)
    ensures Encode(r)[7..11] == Pad(IDXLEN_SZ, BodyLen(r))
    ensures Encode(r)[11..] == Body(r.key, r.datoff, r.datlen)
  {
    hide Pad, Body;
    PadWidth(r.ptr);
    PadWidth(BodyLen(r));
  }

  /** The offset of record i, or of the end of the file for i == |recs|. */
  function Off(recs: seq<Rec>, i: nat): (n: nat)
    requires i <= |recs|
    ensures n >= START
  {
    if i == 0 then START else Off(recs, i - 1) + EncLen(recs[i - 1])
  }

  lemma {:induction false} OffMono(recs: seq<Rec>, i: nat, j: nat)
    requires i < j <= |recs|
    ensures Off(recs, i) + EncLen(recs[i]) <= Off(recs, j)
  {
    if i < j - 1 {
      OffMono(recs, i, j - 1);
    }
  }

  /** Offsets depend on the lengths of the records only. */
  lemma {:induction false} OffSame(recs: seq<Rec>, recs': seq<Rec>, i: nat)
    requires i <= |recs| && i <= |recs'|
    requires forall k :: 0 <= k < i ==> EncLen(recs[k]) == EncLen(recs'[k])
    ensures Off(recs, i) == Off(recs', i)
  {
    if i > 0 {
      OffSame(recs, recs', i - 1);
    }
  }

  /** write at an offset inside a file. */
  function Overwrite(f: seq<byte>, off: nat, b: seq<byte>): (g: seq<byte>)
    requires off + |b| <= |f|
    ensures |g| == |f|
  {
    f[..off] + b + f[off + |b|..]
  }

  lemma OverwriteElsewhere(f: seq<byte>, off: nat, b: seq<byte>, lo: nat, hi: nat)
    requires off + |b| <= |f| && lo <= hi <= |f| && (hi <= off || off + |b| <= lo)
    ensures Overwrite(f, off, b)[lo..hi] == f[lo..hi]
  {
  }

  lemma OverwriteHere(f: seq<byte>, off: nat, b: seq<byte>)
    requires off + |b| <= |f|
    ensures Overwrite(f, off, b)[off..off + |b|] == b
  {
  }

  lemma SubSlice(f: seq<byte>, lo: nat, hi: nat, i: nat, j: nat)
    requires lo <= hi <= |f| && i <= j <= hi - lo
    ensures f[lo..hi][i..j] == f[lo + i..lo + j]
  {
    assert forall k :: 0 <= k < j - i ==> f[lo..hi][i..j][k] == f[lo + i + k];
  }

  /** The bytes of the file hold chain heads and records. */
  ghost predicate HoldsHeads(f: seq<byte>, heads: seq<nat>) {
    && |heads| == NHEADS && START <= |f| && f[START - 1] == NEWLINE
    && forall c :: 0 <= c < NHEADS ==> heads[c] <= PTR_MAX && f[7 * c..7 * c + 7] == Pad(PTR_SZ, heads[c])
  }

  ghost predicate HoldsRec(f: seq<byte>, recs: seq<Rec>, i: nat)
    requires i < |recs|
  {
    RecOk(recs[i]) && Off(recs, i) + EncLen(recs[i]) <= |f| &&
    f[Off(recs, i)..Off(recs, i) + EncLen(recs[i])] == Encode(recs[i])
  }

  ghost predicate Represents(f: seq<byte>, heads: seq<nat>, recs: seq<Rec>) {
    && |f| == Off(recs, |recs|) && HoldsHeads(f, heads)
    && forall i :: 0 <= i < |recs| ==> HoldsRec(f, recs, i)
  }

  lemma ReadHead(f: seq<byte>, heads: seq<nat>, recs: seq<Rec>, c: nat)
    requires Represents(f, heads, recs) && c < NHEADS
    ensures 7 * c + 7 <= |f| && Atol(f[7 * c..7 * c + 7]) == heads[c]
  {
    hide Pad, Atol;
    AtolPad(PTR_SZ, heads[c]);
  }

  /** What _db_readidx finds at the offset of a record. */
  lemma ReadRec(f: seq<byte>, heads: seq<nat>, recs: seq<Rec>, i: nat)
    requires Represents(f, heads, recs) && i < |recs|
    ensures var o, r := Off(recs, i), recs[i];
            && o + EncLen(r) <= |f| && 11 <= EncLen(r)
            && Atol(f[o..o + 7]) == r.ptr && Atol(f[o + 7..o + 11]) == BodyLen(r)
            && ParseBody(f[o + 11..o + EncLen(r)]) == Some(Parsed(r.key, r.datoff, r.datlen))
  {
    hide Pad, Atol, ParseBody, Off, Encode, BodyLen, Body;
    var o, r := Off(recs, i), recs[i];
    assert HoldsRec(f, recs, i);
    EncodeLength(r);
    var s := f[o..o + EncLen(r)];
    SubSlice(f, o, o + EncLen(r), 0, 7);
    SubSlice(f, o, o + EncLen(r), 7, 11);
    SubSlice(f, o, o + EncLen(r), 11, EncLen(r));
    AtolPad(PTR_SZ, r.ptr);
    AtolPad(IDXLEN_SZ, BodyLen(r));
    BodyWithoutSep(r.key, r.datoff, r.datlen);
  }

  /** Writing a chain head changes that head and nothing else. */
  lemma WriteHead(f: seq<byte>, heads: seq<nat>, recs: seq<Rec>, c: nat, v: nat)
    requires Represents(f, heads, recs) && c < NHEADS && v <= PTR_MAX
    ensures |Pad(PTR_SZ, v)| == 7 && Represents(Overwrite(f, 7 * c, Pad(PTR_SZ, v)), heads[c := v], recs)
  {
    hide Pad, Encode, RecOk, EncLen;
    PadWidth(v);
    var g := Overwrite(f, 7 * c, Pad(PTR_SZ, v));
    forall d | 0 <= d < NHEADS
      ensures heads[c := v][d] <= PTR_MAX && g[7 * d..7 * d + 7] == Pad(PTR_SZ, heads[c := v][d])
    {
      if d == c {
        OverwriteHere(f, 7 * c, Pad(PTR_SZ, v));
      } else {
        OverwriteElsewhere(f, 7 * c, Pad(PTR_SZ, v), 7 * d, 7 * d + 7);
      }
    }
    forall i | 0 <= i < |recs|
      ensures HoldsRec(g, recs, i)
    {
      assert HoldsRec(f, recs, i);
      OverwriteElsewhere(f, 7 * c, Pad(PTR_SZ, v), Off(recs, i), Off(recs, i) + EncLen(recs[i]));
    }
  }

  lemma {:induction false} OffUpdated(recs: seq<Rec>, i: nat, r: Rec, k: nat)
    requires i < |recs| && k <= |recs| && EncLen(r) == EncLen(recs[i])
    ensures Off(recs[i := r], k) == Off(recs, k)
  {
    hide EncLen;
    OffSame(recs, recs[i := r], k);
  }

  /** Writing a record over one of the same length changes that record and nothing else. */
  lemma WriteRec(f: seq<byte>, heads: seq<nat>, recs: seq<Rec>, i: nat, r: Rec)
    requires Represents(f, heads, recs) && i < |recs| && RecOk(r) && EncLen(r) == EncLen(recs[i])
    ensures Off(recs, i) + |Encode(r)| <= |f|
    ensures Represents(Overwrite(f, Off(recs, i), Encode(r)), heads, recs[i := r])
  {
    hide Pad, Encode, RecOk, EncLen, Off;
    EncodeLength(r);
    OffUpdated(recs, i, r, |recs|);
    var recs' := recs[i := r];
    var o := Off(recs, i);
    assert HoldsRec(f, recs, i);
    var g := Overwrite(f, o, Encode(r));
    assert HoldsHeads(g, heads) by {
      assert g[START - 1] == f[START - 1];
      forall d | 0 <= d < NHEADS
        ensures g[7 * d..7 * d + 7] == Pad(PTR_SZ, heads[d])
      {
        OverwriteElsewhere(f, o, Encode(r), 7 * d, 7 * d + 7);
      }
    }
    forall k | 0 <= k < |recs'|
      ensures HoldsRec(g, recs', k)
    {
      assert HoldsRec(f, recs, k);
      OffUpdated(recs, i, r, k);
      if k == i {
        OverwriteHere(f, o, Encode(r));
      } else {
        if k < i {
          OffMono(recs, k, i);
        } else {
          OffMono(recs, i, k);
        }
        OverwriteElsewhere(f, o, Encode(r), Off(recs, k), Off(recs, k) + EncLen(recs[k]));
      }
    }
  }

  lemma PtrOnly(r: Rec, v: nat)
    requires RecOk(r) && v <= PTR_MAX
    ensures var r' := r.(ptr := v);
            RecOk(r') && EncLen(r') == EncLen(r) && |Pad(PTR_SZ, v)| == 7 && |Encode(r)| == EncLen(r)
            && Encode(r') == Pad(PTR_SZ, v) + Encode(r)[7..]
  {
    hide Pad, Body;
    PadWidth(v);
    EncodeLength(r);
    EncodeLength(r.(ptr := v));
  }

  /** Writing the chain pointer of a record changes that pointer and nothing else. */
  lemma WriteRecPtr(f: seq<byte>, heads: seq<nat>, recs: seq<Rec>, i: nat, v: nat)
    requires Represents(f, heads, recs) && i < |recs| && v <= PTR_MAX
    ensures |Pad(PTR_SZ, v)| == 7 && Off(recs, i) + 7 <= |f|
    ensures Represents(Overwrite(f, Off(recs, i), Pad(PTR_SZ, v)), heads, recs[i := recs[i].(ptr := v)])
  {
    hide Pad, Encode, RecOk, Off, HoldsHeads;
    var r := recs[i];
    var o := Off(recs, i);
    assert HoldsRec(f, recs, i);
    PtrOnly(r, v);
    WriteRec(f, heads, recs, i, r.(ptr := v));
    SubSlice(f, o, o + EncLen(r), 7, EncLen(r));
    assert Overwrite(f, o, Encode(r.(ptr := v))) == Overwrite(f, o, Pad(PTR_SZ, v));
  }

  lemma OffAppended(recs: seq<Rec>, r: Rec, k: nat)
    requires k <= |recs|
    ensures Off(recs + [r], k) == Off(recs, k)
    ensures Off(recs + [r], |recs| + 1) == Off(recs, |recs|) + EncLen(r)
  {
    hide EncLen;
    OffSame(recs, recs + [r], k);
    OffSame(recs, recs + [r], |recs|);
  }

  /** A record written at the end of the file follows the others. */
  lemma AppendRec(f: seq<byte>, heads: seq<nat>, recs: seq<Rec>, r: Rec)
    requires Represents(f, heads, recs) && RecOk(r)
    ensures Represents(f + Encode(r), heads, recs + [r])
  {
    hide Pad, Encode, RecOk, EncLen, Off;
    EncodeLength(r);
    var recs', g := recs + [r], f + Encode(r);
    OffAppended(recs, r, |recs|);
    assert HoldsHeads(g, heads) by {
      assert g[START - 1] == f[START - 1];
      forall d | 0 <= d < NHEADS
        ensures g[7 * d..7 * d + 7] == f[7 * d..7 * d + 7]
      {
      }
    }
    forall k | 0 <= k < |recs'|
      ensures HoldsRec(g, recs', k)
    {
      if k < |recs| {
        assert HoldsRec(f, recs, k);
        OffAppended(recs, r, k);
        assert g[Off(recs, k)..Off(recs, k) + EncLen(recs[k])] == f[Off(recs, k)..Off(recs, k) + EncLen(recs[k])];
      } else {
        assert g[|f|..] == Encode(r);
      }
    }
  }
}
