/** The operations of apue.3e/db/db.c on the bytes of the index file and the data file. */
module Database {
  import opened Basics
  import opened DbFormat
  import opened DbLayout
  import opened DbChains
  import opened DbContents
  import opened DbRoom

  datatype Flag = Insert | Replace | Store | OtherFlag

  /** A return code, or the end of the process in err_dump or err_quit. */
  datatype Rc = Code(rc: int) | Aborted

  predicate KeyOk(key: Key) {
    0 !in key && SEP !in key
  }

  ghost predicate OffsetsFit(recs: seq<Rec>) {
    forall i :: 0 <= i < |recs| ==> Off(recs, i) <= PTR_MAX
  }

  lemma CellRead(f: seq<byte>, l: Layout, c: nat, k: nat)
    requires Represents(f, l.heads, l.recs) && Linked(l) && c < NHEADS && k <= |l.chains[c]|
    ensures var o := CellOff(l.recs, l.chains[c], c, k);
            o + 7 <= |f| && Atol(f[o..o + 7]) == PtrTo(l.recs, l.chains[c], k)
  {
    hide Off, Atol, HoldsHeads, ParseBody;
    assert ChainOk(l.heads, l.recs, l.chains[c], c);
    if k == 0 {
      ReadHead(f, l.heads, l.recs, c);
    } else {
      ReadRec(f, l.heads, l.recs, l.chains[c][k - 1]);
    }
    assert Cell(l.heads, l.recs, l.chains[c], c, k) == PtrTo(l.recs, l.chains[c], k);
  }

  class Db {
    /** The bytes of the two files, and the position of the index file's descriptor. */
    var idx: seq<byte>
    var dat: seq<byte>
    var idxpos: nat

    var idxbuf: seq<byte>
    var datbuf: seq<byte>
    var idxoff: nat
    var datoff: nat
    var datlen: nat
    var ptrval: nat
    var ptroff: nat
    var chainoff: nat

    ghost var l: Layout
    ghost var contents: map<Key, Data>

    ghost predicate Valid()
      reads this
    {
      && Represents(idx, l.heads, l.recs) && Good(l, dat, contents) && NoneInLimbo(l) && OffsetsFit(l.recs)
    }

    /** The room that the files leave. */
    ghost function RoomNow(): (room: Room)
      reads this
    {
      Room(|idx|, |dat|, Free(l))
    }

    /** The fields that _db_readidx sets are those of record i. */
    ghost predicate AtRec(i: nat)
      reads this
    {
      && i < |l.recs| && idxoff == Off(l.recs, i) && ptrval == l.recs[i].ptr && idxbuf == l.recs[i].key
      && datoff == l.recs[i].datoff && datlen == l.recs[i].datlen
    }

    /** _db_hash */
    method DbHash(key: Key) returns (h: nat)
      ensures h == Hash(key) == HashSum(key) % 137
    {
      var hval := 0;
      for i := 0 to |key|
        invariant hval == HashSum(key[..i])
      {
        var c: int := if key[i] < 128 then key[i] else (key[i] as int) - 256;
        assert key[..i + 1][..i] == key[..i];
        hval := (hval + c * (i + 1)) % 0x1_0000_0000_0000_0000;
      }
      assert key[..|key|] == key;
      h := hval % NHASH;
    }

    /** _db_readptr */
    method ReadPtr(off: nat) returns (v: nat)
      requires off + 7 <= |idx| && Atol(idx[off..off + 7]) >= 0
      modifies `idxpos
      ensures v == Atol(idx[off..off + 7])
    {
      idxpos := off + 7;
      v := Atol(idx[off..off + 7]);
    }

    /** _db_readidx. An offset of 0 means the current position. */
    method ReadIdx(offset: nat, ghost i: nat) returns (next: int)
      requires Represents(idx, l.heads, l.recs) && i <= |l.recs|
      requires Off(l.recs, i) == if offset == 0 then idxpos else offset
      requires i == |l.recs| ==> offset == 0
      modifies `idxpos, `idxbuf, `idxoff, `datoff, `datlen, `ptrval
      ensures i == |l.recs| ==> next == -1 && idxpos == old(idxpos)
      ensures i < |l.recs| ==> AtRec(i) && next == ptrval && idxpos == Off(l.recs, i + 1)
    {
      hide Atol, ParseBody, HoldsHeads, HoldsRec, Body, Encode;
      if offset != 0 {
        idxpos := offset;
      }
      idxoff := idxpos;
      if offset == 0 && idxpos == |idx| {
        assert i == |l.recs| by {
          if i < |l.recs| {
            OffMono(l.recs, i, |l.recs|);
          }
        }
        return -1;
      }
      ReadRec(idx, l.heads, l.recs, i);
      ptrval := Atol(idx[idxoff..idxoff + 7]);
      var idxlen := Atol(idx[idxoff + 7..idxoff + 11]);
      var parsed := ParseBody(idx[idxoff + 11..idxoff + 11 + idxlen]).value;
      idxbuf, datoff, datlen := parsed.key, parsed.datoff, parsed.datlen;
      idxpos := idxoff + 11 + idxlen;
      next := ptrval;
    }
  
    /** _db_find_and_lock, without the lock. */
    method Find(key: Key) returns (found: bool, ghost k: nat)
      requires Represents(idx, l.heads, l.recs) && Good(l, dat, contents) && NoneInLimbo(l)
      modifies `idxpos, `idxbuf, `idxoff, `datoff, `datlen, `ptrval, `ptroff, `chainoff
      ensures chainoff == 7 * (1 + Hash(key)) && found == (key in contents)
      ensures found ==> var chain := l.chains[1 + Hash(key)];
              && k < |chain| && AtRec(chain[k]) && idxbuf == key && ptroff == CellOff(l.recs, chain, 1 + Hash(key), k)
    {
      hide Off, Hash, Represents, KeysOk, DataOk, Means, HomesOk, PtrTo;
      var h := DbHash(key);
      ghost var c := 1 + Hash(key);
      ghost var chain := l.chains[c];
      ChainNoRepeats(l, c);
      chainoff := h * PTR_SZ + PTR_SZ;
      ptroff := chainoff;
      k := 0;
      CellRead(idx, l, c, 0);
      var offset := ReadPtr(ptroff);
      while offset != 0
        invariant k <= |chain| && offset == PtrTo(l.recs, chain, k) && ptroff == CellOff(l.recs, chain, c, k)
        invariant chainoff == 7 * c
        invariant forall j :: 0 <= j < k ==> l.recs[chain[j]].key != key
        decreases |chain| - k
      {
        NotPastEnd(l.recs, chain, k);
        var next := ReadIdx(offset, chain[k]);
        if idxbuf == key {
          FoundIn(l, dat, contents, c, k);
          return true, k;
        }
        NextCell(l, c, k);
        ptroff := offset;
        offset := next;
        k := k + 1;
      }
      PastEnd(l.recs, chain, k);
      NotFound(l, dat, contents, key);
      return false, k;
    }
  
    /** _db_writedat, appending or at an offset inside the file. */
    method WriteDat(data: Data, offset: nat, append: bool)
      requires !append ==> offset + |data| + 1 <= |dat|
      modifies `dat, `datoff, `datlen
      ensures datlen == |data| + 1 && datoff == if append then |old(dat)| else offset
      ensures dat == if append then old(dat) + data + [NEWLINE] else Overwrite(old(dat), offset, data + [NEWLINE])
    {
      datlen := |data| + 1;
      if append {
        datoff := |dat|;
        dat := dat + data + [NEWLINE];
      } else {
        datoff := offset;
        dat := Overwrite(dat, offset, data + [NEWLINE]);
      }
    }

    /** _db_writeidx. The record has the data offset and length that _db_writedat has set. */
    method WriteIdx(key: Key, offset: nat, append: bool, p: nat) returns (ok: bool)
      requires !append ==> offset + 11 + BodyLen(Rec(p, key, datoff, datlen)) <= |idx|
      modifies `idx, `idxbuf, `idxoff, `ptrval
      ensures ok == (p <= PTR_MAX && IDXLEN_MIN <= BodyLen(Rec(p, key, datoff, datlen)) <= IDXLEN_MAX)
      ensures ok ==> ptrval == p && idxoff == if append then |old(idx)| else offset
      ensures ok ==> var bytes := Encode(Rec(p, key, datoff, datlen));
              && |bytes| == EncLen(Rec(p, key, datoff, datlen))
              && idx == if append then old(idx) + bytes else Overwrite(old(idx), offset, bytes)
    {
      hide Pad;
      ptrval := p;
      if p > PTR_MAX {
        return false;
      }
      idxbuf := Body(key, datoff, datlen);
      var len := |idxbuf|;
      if len < IDXLEN_MIN || len > IDXLEN_MAX {
        return false;
      }
      PadWidth(p);
      PadWidth(len);
      var bytes := Pad(PTR_SZ, p) + Pad(IDXLEN_SZ, len) + idxbuf;
      if append {
        idxoff := |idx|;
        idx := idx + bytes;
      } else {
        idxoff := offset;
        idx := Overwrite(idx, offset, bytes);
      }
      ok := true;
    }

    /** _db_writeptr */
    method WritePtr(offset: nat, p: nat) returns (ok: bool)
      requires offset + 7 <= |idx|
      modifies `idx
      ensures ok == (p <= PTR_MAX)
      ensures ok ==> |Pad(PTR_SZ, p)| == 7 && idx == Overwrite(old(idx), offset, Pad(PTR_SZ, p))
    {
      hide Pad;
      if p > PTR_MAX {
        return false;
      }
      PadWidth(p);
      idx := Overwrite(idx, offset, Pad(PTR_SZ, p));
      ok := true;
    }

    /** The index file's part of _db_dodelete: the record is rewritten with a blank key and the free list's head
        as its pointer, becomes that head, and the cell that pointed at it gets its old pointer. */
    method RelinkDeleted(ghost c: nat, ghost k: nat)
      requires Represents(idx, l.heads, l.recs) && Linked(l) && 0 < c < NHEADS && k < |l.chains[c]|
      requires l.chains[c][k] < |l.recs| && OffsetsFit(l.recs)
      requires var r := l.recs[l.chains[c][k]];
               && idxoff == Off(l.recs, l.chains[c][k]) && ptrval == r.ptr && datoff == r.datoff && datlen == r.datlen
               && idxbuf == Blanks(|r.key|) && ptroff == CellOff(l.recs, l.chains[c], c, k)
      modifies `idx, `idxpos, `idxbuf, `idxoff, `ptrval
      ensures Represents(idx, Deleted(l, c, k).heads, Deleted(l, c, k).recs) && |idx| == |old(idx)|
    {
      hide Represents, Encode, Off, Body, Atol, Deleted, Overwrite, Pad, CellOff, Linked;
      LinkedShape(l);
      ghost var i := l.chains[c][k];
      ghost var heads, recs := l.heads, l.recs;
      RecAt(idx, heads, recs, i);
      ReadHead(idx, heads, recs, 0);
      var freeptr := ReadPtr(0);
      var saveptr := ptrval;
      ghost var blank := Rec(freeptr, idxbuf, datoff, datlen);
      BlankRec(recs[i], freeptr);
      WriteRec(idx, heads, recs, i, blank);
      var ok := WriteIdx(idxbuf, idxoff, false, freeptr);
      WriteHead(idx, heads, recs[i := blank], 0, idxoff);
      ok := WritePtr(0, idxoff);
      CellWrite(idx, l, c, k);
      ok := WritePtr(ptroff, saveptr);
    }

    /** _db_dodelete: the current record, k-th of chain c, goes to the front of the free list. */
    method DoDelete(ghost c: nat, ghost k: nat)
      requires Valid() && 0 < c < NHEADS && k < |l.chains[c]|
      requires AtRec(l.chains[c][k]) && ptroff == CellOff(l.recs, l.chains[c], c, k)
      modifies this
      ensures Valid() && contents == old(contents) - {old(idxbuf)} && chainoff == old(chainoff)
      ensures l == Deleted(old(l), c, k) && |dat| == |old(dat)| && |idx| == |old(idx)|
      ensures RoomNow() == Freed(old(RoomNow()), |old(idxbuf)|, old(datlen))
      ensures old(datoff) + old(datlen) <= |old(dat)| && old(datlen) >= 1
      ensures dat == Overwrite(old(dat), old(datoff), Blanks(old(datlen) - 1) + [NEWLINE])
    {
      hide Good, Represents, Linked, Off, Hash, Deleted, Overwrite, NoneInLimbo, CellOff, Free;
      Shape(l, dat, contents);
      ghost var i := l.chains[c][k];
      RecFacts(idx, l, dat, contents, i);
      DeletedGood(l, dat, contents, c, k);
      DeletedRoom(l, c, k);
      ghost var key := idxbuf;
      datbuf := Blanks(datlen - 1);
      idxbuf := Blanks(|idxbuf|);
      WriteDat(datbuf, datoff, false);
      RelinkDeleted(c, k);
      l := Deleted(l, c, k);
      contents := contents - {key};
    }

    /** _db_findfree: take the first free record with these lengths off the free list. */
    method FindFree(keylen: nat, len: nat) returns (found: bool, ghost i: nat)
      requires Valid()
      modifies `idx, `l, `idxpos, `idxbuf, `idxoff, `datoff, `datlen, `ptrval
      ensures found == FreeMatch(old(l), keylen, len)
      ensures !found ==> Valid() && l == old(l) && idx == old(idx)
      ensures found ==> Represents(idx, l.heads, l.recs) && Good(l, dat, contents) && OffsetsFit(l.recs)
      ensures found ==> InHand(l, i, keylen, len) && l.heads[1..] == old(l).heads[1..]
      ensures found ==> idxoff == Off(l.recs, i) && datoff == l.recs[i].datoff
      ensures found ==> RoomNow() == Taken(old(RoomNow()), keylen, len)
    {
      hide Off, Represents, KeysOk, DataOk, Means, HomesOk, PtrTo, ChainOk, Atol, Unlink, Free;
      Shape(l, dat, contents);
      ghost var chain := l.chains[0];
      ChainNoRepeats(l, 0);
      var saveoffset := 0;
      ghost var k := 0;
      CellRead(idx, l, 0, 0);
      var offset := ReadPtr(saveoffset);
      while offset != 0
        invariant l == old(l) && idx == old(idx) && Below(chain, |l.recs|)
        invariant k <= |chain| && offset == PtrTo(l.recs, chain, k) && saveoffset == CellOff(l.recs, chain, 0, k)
        invariant forall j :: 0 <= j < k ==> |l.recs[chain[j]].key| != keylen || l.recs[chain[j]].datlen != len
        decreases |chain| - k
      {
        NotPastEnd(l.recs, chain, k);
        var next := ReadIdx(offset, chain[k]);
        if |idxbuf| == keylen && datlen == len {
          FreeTaken(idx, l, dat, contents, k);
          FreeUnlink(l, k);
          var ok := WritePtr(saveoffset, ptrval);
          i := chain[k];
          l := Unlink(l, 0, k);
          return true, i;
        }
        NextCell(l, 0, k);
        saveoffset := offset;
        offset := next;
        k := k + 1;
      }
      PastEnd(l.recs, chain, k);
      return false, 0;
    }
  
    /** The part of db_store that fills a free record and puts it at the front of its chain. */
    method PutReused(key: Key, data: Data, p: nat, ghost i: nat)
      requires Represents(idx, l.heads, l.recs) && Good(l, dat, contents) && OffsetsFit(l.recs)
      requires InHand(l, i, |key|, |data| + 1) && idxoff == Off(l.recs, i) && datoff == l.recs[i].datoff
      requires chainoff == 7 * (1 + Hash(key)) && p == l.heads[1 + Hash(key)] && key !in contents && SEP !in key
      modifies this
      ensures Valid() && contents == old(contents)[key := data] && RoomNow() == old(RoomNow())
    {
      hide Off, Represents, Linked, KeysOk, DataOk, Means, Encode, Hash, Body, Overwrite, Pad, Free;
      Shape(l, dat, contents);
      FreePushLive(l, 1 + Hash(key), i, key);
      ghost var r := Rec(p, key, datoff, |data| + 1);
      RecFacts(idx, l, dat, contents, i);
      KeyLength(l.recs[i], r);
      GoodWriteDat(l, dat, contents, i, data);
      WriteDat(data, datoff, false);
      GoodPushLive(l, dat, contents, i, key);
      PushKeeps(l, 1 + Hash(key), i, key);
      WriteRec(idx, l.heads, l.recs, i, r);
      var ok := WriteIdx(key, idxoff, false, p);
      WriteHead(idx, l.heads, l.recs[i := r], 1 + Hash(key), idxoff);
      ok := WritePtr(chainoff, idxoff);
      l := Push(l, 1 + Hash(key), i, key);
      contents := contents[key := data];
    }

    /** The part of db_store that appends a record to both files and puts it at the front of its chain. */
    method PutAppended(key: Key, data: Data, p: nat) returns (ok: bool)
      requires Valid() && chainoff == 7 * (1 + Hash(key)) && p == l.heads[1 + Hash(key)]
      requires key !in contents && SEP !in key && DATLEN_MIN <= |data| + 1 <= DATLEN_MAX
      modifies this
      ensures ok == CanAppend(old(l), old(dat), key, data)
      ensures ok ==> Valid() && contents == old(contents)[key := data]
      ensures ok ==> RoomNow() == Filled(old(RoomNow()), key, data)
    {
      hide Off, Represents, Linked, KeysOk, DataOk, Means, Encode, Hash, Body, Overwrite, Pad, Free;
      Shape(l, dat, contents);
      HeadsFit(idx, l);
      ghost var n := |l.recs|;
      ghost var r := Rec(p, key, |dat|, |data| + 1);
      ghost var c := 1 + Hash(key);
      GoodAppend(l, dat, contents, key, data);
      AppendKeeps(l, c, key, |dat|, |data| + 1);
      FreeAppend(l, c, key, |dat|, |data| + 1);
      WriteDat(data, 0, true);
      ok := WriteIdx(key, 0, true, p);
      if !ok {
        return;
      }
      AppendRec(old(idx), l.heads, l.recs, r);
      FileStart(idx, l.heads, l.recs + [r]);
      ok := WritePtr(chainoff, idxoff);
      if !ok {
        return;
      }
      WriteHead(old(idx) + Encode(r), l.heads, l.recs + [r], c, idxoff);
      AppendedFits(l.recs, r);
      l := Append(l, c, key, |old(dat)|, |data| + 1);
      contents := contents[key := data];
    }
  
    /** _db_readdat */
    method ReadDat() returns (d: Data)
      requires 1 <= datlen && datoff + datlen <= |dat|
      modifies `datbuf
      ensures d == dat[datoff..datoff + datlen - 1]
    {
      datbuf := dat[datoff..datoff + datlen - 1];
      d := datbuf;
    }

    /** db_fetch: the data of the key, or nothing. The files are only read. */
    method Fetch(key: Key) returns (r: Option<Data>)
      requires Valid()
      modifies `idxpos, `idxbuf, `datbuf, `idxoff, `datoff, `datlen, `ptrval, `ptroff, `chainoff
      ensures Valid() && r == if key in contents then Some(contents[key]) else None
    {
      hide Off, Represents, Linked, Hash, KeysOk, DataOk, Means;
      Shape(l, dat, contents);
      var found, k := Find(key);
      if !found {
        return None;
      }
      LiveValue(l, dat, contents, 1 + Hash(key), k);
      var d := ReadDat();
      return Some(d);
    }

    /** db_delete: 0 if the key was there, -1 if not; afterwards it is not. */
    method Delete(key: Key) returns (rc: int)
      requires Valid()
      modifies this
      ensures Valid() && contents == old(contents) - {key}
      ensures rc == if key in old(contents) then 0 else -1
      ensures RoomNow() == RoomStep(old(RoomNow()), old(contents), DeleteOp(key))
    {
      hide Off, Represents, Linked, Hash, KeysOk, DataOk, Means, Deleted, Free;
      Shape(l, dat, contents);
      var found, k := Find(key);
      if found {
        LiveValue(l, dat, contents, 1 + Hash(key), k);
        DoDelete(1 + Hash(key), k);
        rc := 0;
      } else {
        assert contents - {key} == contents;
        rc := -1;
      }
    }

    /** db_store of a key that was not found: a free record of the right lengths is reused, or a new one appended. */
    method StoreNew(key: Key, data: Data) returns (rc: Rc)
      requires Valid() && KeyOk(key) && key !in contents && DATLEN_MIN <= |data| + 1 <= DATLEN_MAX
      requires chainoff == 7 * (1 + Hash(key))
      modifies this
      ensures rc == if FreeMatch(old(l), |key|, |data| + 1) || CanAppend(old(l), old(dat), key, data) then Code(0) else Aborted
      ensures rc == Code(0) ==> Valid() && contents == old(contents)[key := data]
      ensures rc == Code(0) ==> RoomNow() == RoomNew(old(RoomNow()), key, data)
    {
      hide Off, Represents, Good, Linked, Hash, CanAppend, FreeMatch, InHand, OffsetsFit, NoneInLimbo, Free, Filled, RoomNew,
        Taken;
      MatchIsFree(l, dat, contents, |key|, |data| + 1);
      RoomNewIs(RoomNow(), key, data);
      Shape(l, dat, contents);
      ghost var c := 1 + Hash(key);
      ReadHead(idx, l.heads, l.recs, c);
      var p := ReadPtr(chainoff);
      var free, i := FindFree(|key|, |data| + 1);
      if !free {
        var ok := PutAppended(key, data, p);
        return if ok then Code(0) else Aborted;
      }
      InHandHeads(l, i, |key|, |data| + 1);
      HeadKept(old(l).heads, l.heads, c);
      PutReused(key, data, p, i);
      rc := Code(0);
    }

    /** db_store of a key that was found: data of the same length is written over the old, other data makes the
        old record a free one and appends a new one. */
    method StoreOver(key: Key, data: Data, ghost k: nat) returns (rc: Rc)
      requires Valid() && KeyOk(key) && key in contents && DATLEN_MIN <= |data| + 1 <= DATLEN_MAX
      requires chainoff == 7 * (1 + Hash(key)) && k < |l.chains[1 + Hash(key)]|
      requires AtRec(l.chains[1 + Hash(key)][k]) && idxbuf == key
      requires ptroff == CellOff(l.recs, l.chains[1 + Hash(key)], 1 + Hash(key), k)
      modifies this
      ensures rc == if |old(contents)[key]| == |data| || CanAppend(old(l), old(dat), key, data) then Code(0) else Aborted
      ensures rc == Code(0) ==> Valid() && contents == old(contents)[key := data]
      ensures rc == Code(0) ==> RoomNow() == RoomOver(old(RoomNow()), key, data, |old(contents)[key]|)
    {
      hide Off, Represents, Good, Linked, Hash, Deleted, CanAppend, OffsetsFit, NoneInLimbo, CellOff, Overwrite, Free;
      Shape(l, dat, contents);
      ghost var c := 1 + Hash(key);
      LiveValue(l, dat, contents, c, k);
      if |data| + 1 != datlen {
        DoDelete(c, k);
        Shape(l, dat, contents);
        ReadHead(idx, l.heads, l.recs, c);
        var p := ReadPtr(chainoff);
        DeletedSame(old(l), old(dat), dat, c, k, key, data);
        var ok := PutAppended(key, data, p);
        assert old(contents)[key := data] == (old(contents) - {key})[key := data];
        return if ok then Code(0) else Aborted;
      }
      GoodWriteDat(l, dat, contents, l.chains[c][k], data);
      WriteDat(data, datoff, false);
      contents := contents[key := data];
      rc := Code(0);
    }

    /** db_store. Unless it ends the process, the key has the new data afterwards, except that an insertion does
        not replace, a replacement does not insert, and an unknown flag does nothing. */
    method StoreRecord(key: Key, data: Data, flag: Flag) returns (rc: Rc)
      requires Valid() && KeyOk(key) && 0 !in data
      modifies this
      ensures rc.Aborted? <==> StoreAborts(old(l), old(dat), old(contents), key, data, flag)
      ensures !rc.Aborted? ==> Valid()
      ensures !rc.Aborted? && flag == Insert ==>
        if key in old(contents) then rc == Code(1) && contents == old(contents)
        else rc == Code(0) && contents == old(contents)[key := data]
      ensures !rc.Aborted? && flag == Replace ==>
        if key in old(contents) then rc == Code(0) && contents == old(contents)[key := data]
        else rc == Code(-1) && contents == old(contents)
      ensures !rc.Aborted? && flag == Store ==> rc == Code(0) && contents == old(contents)[key := data]
      ensures flag == OtherFlag ==> rc == Code(-1) && contents == old(contents)
      ensures rc.Aborted? <==> Ends(old(RoomNow()), old(contents), StoreOp(key, data, flag))
      ensures !rc.Aborted? ==> RoomNow() == RoomStep(old(RoomNow()), old(contents), StoreOp(key, data, flag))
    {
      hide Off, Represents, Good, Hash, CanAppend, FreeMatch, OffsetsFit, NoneInLimbo, CellOff, Free;
      AbortsIff(idx, l, dat, contents, key, data, flag);
      if flag == OtherFlag {
        return Code(-1);
      }
      var len := |data| + 1;
      if len < DATLEN_MIN || len > DATLEN_MAX {
        return Aborted;
      }
      var found, k := Find(key);
      if !found {
        if flag == Replace {
          return Code(-1);
        }
        rc := StoreNew(key, data);
      } else {
        if flag == Insert {
          return Code(1);
        }
        rc := StoreOver(key, data, k);
      }
    }

    /** db_open of a new database: the heads, all zero, and a newline. */
    constructor ()
      ensures Valid() && contents == map[] && l.recs == [] && RoomNow() == Room(START, 0, multiset{})
    {
      var hash: seq<byte> := [];
      for i := 0 to NHEADS
        invariant |hash| == 7 * i
        invariant forall c :: 0 <= c < i ==> hash[7 * c..7 * c + 7] == Pad(PTR_SZ, 0)
      {
        PadWidth(0);
        ghost var before := hash;
        hash := hash + Pad(PTR_SZ, 0);
        assert forall c :: 0 <= c < i ==> hash[7 * c..7 * c + 7] == before[7 * c..7 * c + 7];
        assert hash[7 * i..7 * i + 7] == Pad(PTR_SZ, 0);
      }
      var file := hash + [NEWLINE];
      assert forall c :: 0 <= c < NHEADS ==> file[7 * c..7 * c + 7] == hash[7 * c..7 * c + 7];
      idx, dat, idxpos := file, [], START;
      idxbuf, datbuf := [], [];
      idxoff, datoff, datlen, ptrval, ptroff, chainoff := START, 0, 0, 0, 0, 0;
      l := Layout(seq(NHEADS, _ => 0), [], seq(NHEADS, _ => []), []);
      contents := map[];
    }

    /** db_rewind */
    method Rewind()
      requires Valid()
      modifies `idxpos, `idxoff
      ensures Valid() && idxpos == Off(l.recs, 0)
    {
      idxpos := (NHASH + 1) * PTR_SZ + 1;
      idxoff := idxpos;
    }

    /** db_nextrec, at the start of record j: the next record whose key is not blank, or the end of the file. */
    method NextRec(ghost j: nat) returns (r: Option<(Key, Data)>, ghost next: nat)
      requires Valid() && j <= |l.recs| && idxpos == Off(l.recs, j)
      modifies `idxpos, `idxbuf, `datbuf, `idxoff, `datoff, `datlen, `ptrval
      ensures Valid() && j <= next <= |l.recs| && idxpos == Off(l.recs, next)
      ensures forall i :: j <= i < (if r.Some? then next - 1 else next) ==> IsBlankKey(l.recs[i].key)
      ensures r.None? ==> next == |l.recs|
      ensures r.Some? ==> j < next && !IsBlankKey(l.recs[next - 1].key)
      ensures r.Some? ==> DataAt(l.recs[next - 1], dat) && r.value == (l.recs[next - 1].key, Value(l.recs[next - 1], dat))
    {
      hide Off, Represents, Linked, Hash, KeysOk, Means;
      next := j;
      var blank := true;
      while blank
        invariant j <= next <= |l.recs| && idxpos == Off(l.recs, next)
        invariant blank ==> forall i :: j <= i < next ==> IsBlankKey(l.recs[i].key)
        invariant !blank ==> j < next && AtRec(next - 1) && !IsBlankKey(l.recs[next - 1].key)
        invariant !blank ==> forall i :: j <= i < next - 1 ==> IsBlankKey(l.recs[i].key)
        decreases |l.recs| - next + if blank then 1 else 0
      {
        var p := ReadIdx(0, next);
        if p < 0 {
          return None, next;
        }
        next := next + 1;
        blank := IsBlankKey(idxbuf);
      }
      assert DataAt(l.recs[next - 1], dat);
      var d := ReadDat();
      r := Some((idxbuf, d));
    }

    /** db_rewind, then db_nextrec until it reports the end. */
    method Scan() returns (out: seq<(Key, Data)>)
      requires Valid()
      modifies `idxpos, `idxbuf, `datbuf, `idxoff, `datoff, `datlen, `ptrval
      ensures Valid() && out == Listing(l.recs, dat, |l.recs|)
    {
      hide Represents, Good, Off, Listing;
      Rewind();
      out := [];
      ghost var j := 0;
      ListingStart(l.recs, dat);
      while true
        invariant Valid() && j <= |l.recs| && idxpos == Off(l.recs, j) && out == Listing(l.recs, dat, j)
        decreases |l.recs| - j
      {
        ghost var from := j;
        var r;
        r, j := NextRec(j);
        if r.None? {
          ListingBlank(l.recs, dat, from, j);
          return;
        }
        ListingBlank(l.recs, dat, from, j - 1);
        ListingOne(l.recs, dat, j - 1);
        out := out + [r.value];
      }
    }
  }

  predicate IsBlankKey(key: Key) {
    forall i :: 0 <= i < |key| ==> key[i] == SPACE
  }

  /** The keys that are not blank, with their data, of the first n records in file order. */
  ghost function Listing(recs: seq<Rec>, dat: seq<byte>, n: nat): (r: seq<(Key, Data)>)
    requires n <= |recs|
  {
    if n == 0 then []
    else
      Listing(recs, dat, n - 1) +
      if IsBlankKey(recs[n - 1].key) || !DataAt(recs[n - 1], dat) then []
      else [(recs[n - 1].key, Value(recs[n - 1], dat))]
  }

  lemma ListingStart(recs: seq<Rec>, dat: seq<byte>)
    ensures Listing(recs, dat, 0) == []
  {
  }

  lemma {:induction false} ListingBlank(recs: seq<Rec>, dat: seq<byte>, i: nat, j: nat)
    requires i <= j <= |recs| && forall k :: i <= k < j ==> IsBlankKey(recs[k].key)
    ensures Listing(recs, dat, j) == Listing(recs, dat, i)
  {
    if i < j {
      ListingBlank(recs, dat, i, j - 1);
    }
  }

  lemma ListingOne(recs: seq<Rec>, dat: seq<byte>, i: nat)
    requires i < |recs| && !IsBlankKey(recs[i].key) && DataAt(recs[i], dat)
    ensures Listing(recs, dat, i + 1) == Listing(recs, dat, i) + [(recs[i].key, Value(recs[i], dat))]
  {
  }

  ghost predicate IsEntry(l: Layout, dat: seq<byte>, i: nat, p: (Key, Data))
    requires i < |l.recs| == |l.home| && DataOk(l.recs, dat)
  {
    Live(l, i) && p == (l.recs[i].key, Value(l.recs[i], dat))
  }

  ghost predicate Covered(l: Layout, dat: seq<byte>, n: nat, p: (Key, Data))
    requires n <= |l.recs| == |l.home| && DataOk(l.recs, dat)
  {
    exists i :: 0 <= i < n && IsEntry(l, dat, i, p)
  }

  /** What a listing holds: each record of the database that is not blank, once. */
  ghost predicate Lists(l: Layout, dat: seq<byte>, n: nat, out: seq<(Key, Data)>)
    requires n <= |l.recs| == |l.home| && DataOk(l.recs, dat)
  {
    && (forall x :: 0 <= x < |out| ==> Covered(l, dat, n, out[x]))
    && (forall i :: 0 <= i < n && Live(l, i) && !IsBlankKey(l.recs[i].key) ==> (l.recs[i].key, Value(l.recs[i], dat)) in out)
    && (forall x :: 0 <= x < |out| ==> !IsBlankKey(out[x].0))
    && (forall x, y :: 0 <= x < y < |out| ==> out[x].0 != out[y].0)
  }

  lemma ListsBlank(l: Layout, dat: seq<byte>, n: nat, out: seq<(Key, Data)>)
    requires n < |l.recs| == |l.home| && DataOk(l.recs, dat) && Lists(l, dat, n, out) && IsBlankKey(l.recs[n].key)
    ensures Lists(l, dat, n + 1, out)
  {
    forall x | 0 <= x < |out|
      ensures Covered(l, dat, n + 1, out[x])
    {
      assert Covered(l, dat, n, out[x]);
    }
  }

  lemma ListsOne(l: Layout, dat: seq<byte>, n: nat, out: seq<(Key, Data)>)
    requires n < |l.recs| && KeysOk(l) && DataOk(l.recs, dat) && Lists(l, dat, n, out)
    requires !IsBlankKey(l.recs[n].key) && Live(l, n)
    ensures Lists(l, dat, n + 1, out + [(l.recs[n].key, Value(l.recs[n], dat))])
  {
    hide Hash;
    forall x | 0 <= x < |out|
      ensures out[x].0 != l.recs[n].key && Covered(l, dat, n + 1, out[x])
    {
      assert Covered(l, dat, n, out[x]);
    }
    var out' := out + [(l.recs[n].key, Value(l.recs[n], dat))];
    assert IsEntry(l, dat, n, out'[|out|]) && Covered(l, dat, n + 1, out'[|out|]);
    forall i | 0 <= i < n && Live(l, i) && !IsBlankKey(l.recs[i].key)
      ensures (l.recs[i].key, Value(l.recs[i], dat)) in out'
    {
      assert (l.recs[i].key, Value(l.recs[i], dat)) in out;
    }
  }

  lemma {:induction false} ListingLists(l: Layout, dat: seq<byte>, n: nat)
    requires KeysOk(l) && DataOk(l.recs, dat) && NoneInLimbo(l) && n <= |l.recs|
    ensures Lists(l, dat, n, Listing(l.recs, dat, n))
  {
    hide Value, Lists, KeysOk, NoneInLimbo;
    HomesMatch(l);
    if n == 0 {
      ListsNone(l, dat);
    } else {
      ListingLists(l, dat, n - 1);
      assert DataAt(l.recs[n - 1], dat);
      if IsBlankKey(l.recs[n - 1].key) {
        ListsBlank(l, dat, n - 1, Listing(l.recs, dat, n - 1));
        assert Listing(l.recs, dat, n) == Listing(l.recs, dat, n - 1);
      } else {
        NotFreeIsLive(l, n - 1);
        ListsOne(l, dat, n - 1, Listing(l.recs, dat, n - 1));
      }
    }
  }

  lemma HomesMatch(l: Layout)
    requires KeysOk(l)
    ensures |l.home| == |l.recs|
  {
  }

  lemma ListsNone(l: Layout, dat: seq<byte>)
    requires |l.recs| == |l.home| && DataOk(l.recs, dat)
    ensures Lists(l, dat, 0, [])
  {
  }

  lemma NotFreeIsLive(l: Layout, i: nat)
    requires KeysOk(l) && NoneInLimbo(l) && i < |l.recs| && !IsBlankKey(l.recs[i].key)
    ensures Live(l, i)
  {
  }

  /** The scan returns the keys that are not blank, each of them once and with its data, and nothing else: no
      deleted record is returned. */
  lemma ScanIsContents(l: Layout, dat: seq<byte>, m: map<Key, Data>)
    requires Good(l, dat, m) && NoneInLimbo(l)
    ensures var out := Listing(l.recs, dat, |l.recs|);
            && (forall x :: 0 <= x < |out| ==> !IsBlankKey(out[x].0) && out[x].0 in m && m[out[x].0] == out[x].1)
            && (forall key :: key in m && !IsBlankKey(key) ==> (key, m[key]) in out)
            && (forall x, y :: 0 <= x < y < |out| ==> out[x].0 != out[y].0)
  {
    hide Linked, Hash, Listing, Value;
    ListingLists(l, dat, |l.recs|);
    var out := Listing(l.recs, dat, |l.recs|);
    forall x | 0 <= x < |out|
      ensures out[x].0 in m && m[out[x].0] == out[x].1
    {
      assert Covered(l, dat, |l.recs|, out[x]);
    }
    forall key | key in m && !IsBlankKey(key)
      ensures (key, m[key]) in out
    {
      var i :| 0 <= i < |l.recs| && Live(l, i) && l.recs[i].key == key;
    }
  }

  lemma NotPastEnd(recs: seq<Rec>, chain: seq<nat>, k: nat)
    requires Below(chain, |recs|) && PtrTo(recs, chain, k) != 0
    ensures k < |chain| && PtrTo(recs, chain, k) == Off(recs, chain[k])
  {
  }

  lemma PastEnd(recs: seq<Rec>, chain: seq<nat>, k: nat)
    requires Below(chain, |recs|) && PtrTo(recs, chain, k) == 0
    ensures k >= |chain|
  {
  }

  /** The pointer of the k-th record leads to the next. */
  lemma NextCell(l: Layout, c: nat, k: nat)
    requires Linked(l) && c < NHEADS && k < |l.chains[c]|
    ensures l.recs[l.chains[c][k]].ptr == PtrTo(l.recs, l.chains[c], k + 1)
    ensures CellOff(l.recs, l.chains[c], c, k + 1) == Off(l.recs, l.chains[c][k])
  {
    assert ChainOk(l.heads, l.recs, l.chains[c], c);
    assert Cell(l.heads, l.recs, l.chains[c], c, k + 1) == PtrTo(l.recs, l.chains[c], k + 1);
  }

  lemma FoundIn(l: Layout, dat: seq<byte>, m: map<Key, Data>, c: nat, k: nat)
    requires Good(l, dat, m) && 0 < c < NHEADS && k < |l.chains[c]|
    ensures var i := l.chains[c][k]; i < |l.recs| && l.recs[i].key in m
  {
    assert l.chains[c][k] in l.chains[c];
    assert Live(l, l.chains[c][k]);
  }

  /** A key that is on no record of its chain is not in the map. */
  lemma NotFound(l: Layout, dat: seq<byte>, m: map<Key, Data>, key: Key)
    requires Good(l, dat, m)
    requires var chain := l.chains[1 + Hash(key)];
             Below(chain, |l.recs|) && forall j :: 0 <= j < |chain| ==> l.recs[chain[j]].key != key
    ensures key !in m
  {
    hide Hash, ChainOk;
    forall i | 0 <= i < |l.recs| && Live(l, i)
      ensures l.recs[i].key != key
    {
      assert i in l.chains[l.home[i]];
    }
  }

  ghost function Deleted(l: Layout, c: nat, k: nat): (r: Layout)
    requires Linked(l) && c < NHEADS && k < |l.chains[c]|
  {
    UnlinkKeeps(l, c, k);
    var i := l.chains[c][k];
    UnlinkSameBut(l, c, k);
    Push(Unlink(l, c, k), 0, i, Blanks(|l.recs[i].key|))
  }

  lemma RecFacts(f: seq<byte>, l: Layout, dat: seq<byte>, m: map<Key, Data>, i: nat)
    requires Represents(f, l.heads, l.recs) && Good(l, dat, m) && i < |l.recs|
    ensures RecOk(l.recs[i]) && DataAt(l.recs[i], dat) && Off(l.recs, i) + EncLen(l.recs[i]) <= |f| && START <= |f|
    ensures |l.heads| == |l.chains| == NHEADS && Linked(l) && forall c :: 0 <= c < NHEADS ==> l.heads[c] <= PTR_MAX
  {
    hide Off, Encode, Pad;
    assert HoldsRec(f, l.recs, i);
  }

  lemma RecAt(f: seq<byte>, heads: seq<nat>, recs: seq<Rec>, i: nat)
    requires Represents(f, heads, recs) && i < |recs|
    ensures RecOk(recs[i]) && Off(recs, i) + EncLen(recs[i]) <= |f| && START <= |f| && |heads| == NHEADS
    ensures forall c :: 0 <= c < NHEADS ==> heads[c] <= PTR_MAX
  {
    hide Off, Encode, Pad;
    assert HoldsRec(f, recs, i);
  }

  lemma LinkedShape(l: Layout)
    requires Linked(l)
    ensures |l.heads| == |l.chains| == NHEADS
  {
  }

  lemma Shape(l: Layout, dat: seq<byte>, m: map<Key, Data>)
    requires Good(l, dat, m)
    ensures Linked(l) && |l.heads| == |l.chains| == NHEADS && |l.home| == |l.recs|
  {
  }

  /** A record with its key blanked and another pointer has the same length. */
  lemma BlankRec(r: Rec, p: nat)
    requires RecOk(r) && p <= PTR_MAX
    ensures var b := Rec(p, Blanks(|r.key|), r.datoff, r.datlen);
            RecOk(b) && EncLen(b) == EncLen(r) && BodyLen(b) == BodyLen(r)
  {
  }

  /** The last write of a deletion, when the record is blanked and heads the free list. */
  lemma CellWrite(f: seq<byte>, l: Layout, c: nat, k: nat)
    requires Linked(l) && 0 < c < NHEADS && k < |l.chains[c]|
    requires var i := l.chains[c][k];
             i < |l.recs| && l.recs[i].ptr <= PTR_MAX &&
             var blank := Rec(l.heads[0], Blanks(|l.recs[i].key|), l.recs[i].datoff, l.recs[i].datlen);
             Represents(f, l.heads[0 := Off(l.recs, i)], l.recs[i := blank])
    ensures var o, v := CellOff(l.recs, l.chains[c], c, k), l.recs[l.chains[c][k]].ptr;
            && o + 7 <= |f| && |Pad(PTR_SZ, v)| == 7
            && Represents(Overwrite(f, o, Pad(PTR_SZ, v)), Deleted(l, c, k).heads, Deleted(l, c, k).recs)
  {
    hide Represents, Off, Overwrite, Pad, EncLen;
    var i := l.chains[c][k];
    var v := l.recs[i].ptr;
    var blank := Rec(l.heads[0], Blanks(|l.recs[i].key|), l.recs[i].datoff, l.recs[i].datlen);
    var heads, recs := l.heads[0 := Off(l.recs, i)], l.recs[i := blank];
    BlankLength(l.recs[i], l.heads[0]);
    PtrUpdateOffsets(l.recs, i, blank);
    UnlinkKeeps(l, c, k);
    FileStart(f, heads, recs);
    ChainNoRepeats(l, c);
    if k == 0 {
      WriteHead(f, heads, recs, c, v);
      assert heads[c := v] == Deleted(l, c, k).heads && recs == Deleted(l, c, k).recs;
    } else {
      var j := l.chains[c][k - 1];
      WriteRecPtr(f, heads, recs, j, v);
      assert heads == Deleted(l, c, k).heads && recs[j := recs[j].(ptr := v)] == Deleted(l, c, k).recs;
    }
  }

  lemma BlankLength(r: Rec, p: nat)
    ensures EncLen(Rec(p, Blanks(|r.key|), r.datoff, r.datlen)) == EncLen(r)
  {
  }

  lemma FileStart(f: seq<byte>, heads: seq<nat>, recs: seq<Rec>)
    requires Represents(f, heads, recs)
    ensures |heads| == NHEADS && START <= |f|
  {
  }

  /** A deletion takes the key out of the map and leaves a well-formed database. */
  lemma DeletedGood(l: Layout, dat: seq<byte>, m: map<Key, Data>, c: nat, k: nat)
    requires Good(l, dat, m) && NoneInLimbo(l) && OffsetsFit(l.recs) && 0 < c < NHEADS && k < |l.chains[c]|
    requires l.chains[c][k] < |l.recs| && DataAt(l.recs[l.chains[c][k]], dat)
    ensures var r, l' := l.recs[l.chains[c][k]], Deleted(l, c, k);
            && Good(l', Overwrite(dat, r.datoff, Blanks(r.datlen - 1) + [NEWLINE]), m - {r.key})
            && NoneInLimbo(l') && OffsetsFit(l'.recs)
  {
    hide HomesOk, ChainOk, KeysOk, DataOk, Means, Off, Overwrite, Hash;
    var i := l.chains[c][k];
    var r := l.recs[i];
    var u := Unlink(l, c, k);
    GoodUnlink(l, dat, m, c, k);
    UnlinkSameBut(l, c, k);
    UnlinkKeeps(l, c, k);
    var dat' := Overwrite(dat, r.datoff, Blanks(r.datlen - 1) + [NEWLINE]);
    GoodWriteDat(u, dat, m - {r.key}, i, Blanks(r.datlen - 1));
    GoodPushFree(u, dat', m - {r.key}, i);
    PushKeeps(u, 0, i, Blanks(|r.key|));
  }

  ghost predicate FreeMatch(l: Layout, keylen: nat, len: nat) {
    |l.chains| > 0 && Below(l.chains[0], |l.recs|) &&
    exists j :: 0 <= j < |l.chains[0]| && |l.recs[l.chains[0][j]].key| == keylen && l.recs[l.chains[0][j]].datlen == len
  }

  /** Record i, of these lengths, is the one record that is on no chain. */
  ghost predicate InHand(l: Layout, i: nat, keylen: nat, len: nat) {
    && i < |l.recs| == |l.home| && |l.heads| == NHEADS && l.home[i] == LIMBO
    && (forall j :: 0 <= j < |l.home| && j != i ==> l.home[j] < LIMBO)
    && |l.recs[i].key| == keylen && l.recs[i].datlen == len
  }

  lemma FreeTaken(f: seq<byte>, l: Layout, dat: seq<byte>, m: map<Key, Data>, k: nat)
    requires Represents(f, l.heads, l.recs) && Good(l, dat, m) && NoneInLimbo(l) && OffsetsFit(l.recs)
    requires k < |l.chains[0]|
    ensures var i, u, o := l.chains[0][k], Unlink(l, 0, k), CellOff(l.recs, l.chains[0], 0, k);
            && i < |l.recs| && l.recs[i].ptr <= PTR_MAX && |Pad(PTR_SZ, l.recs[i].ptr)| == 7 && o + 7 <= |f|
            && Represents(Overwrite(f, o, Pad(PTR_SZ, l.recs[i].ptr)), u.heads, u.recs)
            && Good(u, dat, m) && OffsetsFit(u.recs) && Off(u.recs, i) == Off(l.recs, i)
            && InHand(u, i, |l.recs[i].key|, l.recs[i].datlen) && u.recs[i].datoff == l.recs[i].datoff
            && u.heads[1..] == l.heads[1..]
  {
    hide Off, Represents, KeysOk, DataOk, Means, Overwrite, Pad, Encode, HomesOk, ChainOk;
    var i := l.chains[0][k];
    GoodUnlink(l, dat, m, 0, k);
    UnlinkKeeps(l, 0, k);
    UnlinkSameBut(l, 0, k);
    RecFacts(f, l, dat, m, i);
    if k == 0 {
      WriteHead(f, l.heads, l.recs, 0, l.recs[i].ptr);
    } else {
      ChainNoRepeats(l, 0);
      WriteRecPtr(f, l.heads, l.recs, l.chains[0][k - 1], l.recs[i].ptr);
    }
  }

  /** A new index record has a valid length and starts at an offset that a chain pointer can hold. */
  ghost predicate CanAppend(l: Layout, dat: seq<byte>, key: Key, data: Data) {
    && IDXLEN_MIN <= BodyLen(Rec(0, key, |dat|, |data| + 1)) <= IDXLEN_MAX
    && Off(l.recs, |l.recs|) <= PTR_MAX
  }

  lemma KeyLength(r: Rec, s: Rec)
    requires RecOk(r) && |s.key| == |r.key| && s.datoff == r.datoff && s.datlen == r.datlen
    ensures EncLen(s) == EncLen(r) && BodyLen(s) == BodyLen(r)
    ensures s.ptr <= PTR_MAX && SEP !in s.key ==> RecOk(s)
  {
  }

  lemma HeadsFit(f: seq<byte>, l: Layout)
    requires Represents(f, l.heads, l.recs)
    ensures |f| == Off(l.recs, |l.recs|) && |l.heads| == NHEADS && forall c :: 0 <= c < NHEADS ==> l.heads[c] <= PTR_MAX
  {
    hide Pad;
  }

  lemma AppendedFits(recs: seq<Rec>, r: Rec)
    requires OffsetsFit(recs) && Off(recs, |recs|) <= PTR_MAX
    ensures OffsetsFit(recs + [r])
  {
    hide Off;
    AppendOffsets(recs, r);
  }

  /** The code that db_store returns when it returns. */
  function StoreCode(m: map<Key, Data>, key: Key, flag: Flag): (rc: int) {
    match flag
    case OtherFlag => -1
    case Insert => if key in m then 1 else 0
    case Replace => if key in m then 0 else -1
    case Store => 0
  }

  /** db_store ends the process when the data has no valid length, or when it has to append a record and cannot. */
  ghost predicate StoreAborts(l: Layout, dat: seq<byte>, m: map<Key, Data>, key: Key, data: Data, flag: Flag) {
    flag != OtherFlag &&
    var len := |data| + 1;
    || len < DATLEN_MIN || len > DATLEN_MAX
    || (key !in m && flag != Replace && !FreeMatch(l, |key|, len) && !CanAppend(l, dat, key, data))
    || (key in m && flag != Insert && |m[key]| != |data| && !CanAppend(l, dat, key, data))
  }

  lemma HeadKept(heads: seq<nat>, heads': seq<nat>, c: nat)
    requires 0 < c < |heads| == |heads'| && heads'[1..] == heads[1..]
    ensures heads'[c] == heads[c]
  {
    assert heads'[1..][c - 1] == heads[1..][c - 1];
  }

  lemma InHandHeads(l: Layout, i: nat, keylen: nat, len: nat)
    requires InHand(l, i, keylen, len)
    ensures |l.heads| == NHEADS
  {
  }

  /** The data of a record on a hash chain is what the map has for its key. */
  lemma LiveValue(l: Layout, dat: seq<byte>, m: map<Key, Data>, c: nat, k: nat)
    requires Good(l, dat, m) && 0 < c < NHEADS && k < |l.chains[c]|
    ensures var i := l.chains[c][k];
            && i < |l.recs| == |l.home| && Live(l, i) && DataAt(l.recs[i], dat)
            && l.recs[i].key in m && m[l.recs[i].key] == Value(l.recs[i], dat)
  {
    assert l.chains[c][k] in l.chains[c];
  }

  /** A deletion does not change whether a record can be appended. */
  lemma DeletedSame(l: Layout, dat: seq<byte>, dat': seq<byte>, c: nat, k: nat, key: Key, data: Data)
    requires Linked(l) && c < NHEADS && k < |l.chains[c]| && |dat'| == |dat|
    ensures CanAppend(Deleted(l, c, k), dat', key, data) == CanAppend(l, dat, key, data)
  {
    hide Off, Body, HomesOk, ChainOk;
    UnlinkKeeps(l, c, k);
    UnlinkSameBut(l, c, k);
    var i := l.chains[c][k];
    PushKeeps(Unlink(l, c, k), 0, i, Blanks(|l.recs[i].key|));
  }

  /** Client calls and what they return. */
  datatype Op = FetchOp(key: Key) | DeleteOp(key: Key) | StoreOp(key: Key, data: Data, flag: Flag)
  datatype Reply = Fetched(data: Option<Data>) | Returned(rc: Rc)

  /** A plain map as the database. */
  function MapStep(m: map<Key, Data>, op: Op): (r: (map<Key, Data>, Reply)) {
    match op
    case FetchOp(key) => (m, Fetched(if key in m then Some(m[key]) else None))
    case DeleteOp(key) => (m - {key}, Returned(Code(if key in m then 0 else -1)))
    case StoreOp(key, data, flag) =>
      var rc := StoreCode(m, key, flag);
      (if rc == 0 then m[key := data] else m, Returned(Code(rc)))
  }

  function MapRun(m: map<Key, Data>, ops: seq<Op>): (r: (map<Key, Data>, seq<Reply>))
    ensures |r.1| == |ops|
    decreases |ops|
  {
    if ops == [] then (m, [])
    else
      var (m1, replies) := MapRun(m, ops[..|ops| - 1]);
      var (m2, reply) := MapStep(m1, ops[|ops| - 1]);
      (m2, replies + [reply])
  }

  lemma MapRunOne(m: map<Key, Data>, ops: seq<Op>, k: nat)
    requires k < |ops|
    ensures var (m1, replies) := MapRun(m, ops[..k]);
            var (m2, reply) := MapStep(m1, ops[k]);
            MapRun(m, ops[..k + 1]) == (m2, replies + [reply])
  {
    assert ops[..k + 1][..k] == ops[..k];
  }

  /** A record of these lengths becomes free. */
  ghost function Freed(room: Room, keylen: nat, len: nat): (room': Room) {
    room.(free := room.free + multiset{(keylen, len)})
  }

  /** A free record of these lengths is taken. */
  ghost function Taken(room: Room, keylen: nat, len: nat): (room': Room) {
    room.(free := room.free - multiset{(keylen, len)})
  }

  /** A record is appended to both files. */
  ghost function Filled(room: Room, key: Key, data: Data): (room': Room) {
    Room(room.idx + EncLen(Rec(0, key, room.dat, |data| + 1)), room.dat + |data| + 1, room.free)
  }

  /** A key that is not stored: a free record of just its lengths is used, or one appended. */
  ghost function RoomNew(room: Room, key: Key, data: Data): (room': Room) {
    var n := (|key|, |data| + 1);
    if n in room.free then Taken(room, |key|, |data| + 1) else Filled(room, key, data)
  }

  lemma RoomNewIs(room: Room, key: Key, data: Data)
    ensures var n := (|key|, |data| + 1);
            && (n in room.free ==> RoomNew(room, key, data) == Taken(room, |key|, |data| + 1))
            && (n !in room.free ==> RoomNew(room, key, data) == Filled(room, key, data))
  {
  }

  /** A key that is stored with data of length n: the data is overwritten, or its record freed and another appended. */
  ghost function RoomOver(room: Room, key: Key, data: Data, n: nat): (room': Room) {
    if n == |data| then room else Filled(Freed(room, |key|, n + 1), key, data)
  }

  /** What a call that does not end the process does to the room; it depends on the keys and lengths only. */
  ghost function RoomStep(room: Room, m: map<Key, Data>, op: Op): (room': Room) {
    match op
    case FetchOp(_) => room
    case DeleteOp(key) => if key in m then Freed(room, |key|, |m[key]| + 1) else room
    case StoreOp(key, data, flag) =>
      if StoreCode(m, key, flag) != 0 then room
      else if key in m then RoomOver(room, key, data, |m[key]|)
      else RoomNew(room, key, data)
  }

  /** There is room to append: the index record has a valid length, and the file ends where a pointer can point. */
  ghost predicate HasRoom(room: Room, key: Key, data: Data) {
    IDXLEN_MIN <= BodyLen(Rec(0, key, room.dat, |data| + 1)) <= IDXLEN_MAX && room.idx <= PTR_MAX
  }

  /** The call ends the process: data of no valid length, or a record to append and no room for it. */
  ghost predicate Ends(room: Room, m: map<Key, Data>, op: Op) {
    op.StoreOp? && op.flag != OtherFlag &&
    var len := |op.data| + 1;
    || len < DATLEN_MIN || len > DATLEN_MAX
    || (StoreCode(m, op.key, op.flag) == 0 && !HasRoom(room, op.key, op.data) &&
        if op.key in m then |m[op.key]| != |op.data| else (|op.key|, len) !in room.free)
  }

  /** Map and room after some calls, none of which ends the process. */
  ghost function RoomRun(room: Room, m: map<Key, Data>, ops: seq<Op>): (room': Room)
    decreases |ops|
  {
    if ops == [] then room
    else
      var front := ops[..|ops| - 1];
      RoomStep(RoomRun(room, m, front), MapRun(m, front).0, ops[|ops| - 1])
  }

  lemma RoomRunOne(room: Room, m: map<Key, Data>, ops: seq<Op>, k: nat)
    requires k < |ops|
    ensures RoomRun(room, m, ops[..k + 1]) == RoomStep(RoomRun(room, m, ops[..k]), MapRun(m, ops[..k]).0, ops[k])
  {
    hide RoomStep, MapRun;
    assert ops[..k + 1][..k] == ops[..k];
  }

  /** The k-th call of a run ends the process, given the room and the map that the run starts with. */
  ghost predicate EndsAt(room: Room, m: map<Key, Data>, ops: seq<Op>, k: nat)
    requires k < |ops|
  {
    Ends(RoomRun(room, m, ops[..k]), MapRun(m, ops[..k]).0, ops[k])
  }

  lemma MatchIsFree(l: Layout, dat: seq<byte>, m: map<Key, Data>, keylen: nat, len: nat)
    requires Good(l, dat, m)
    ensures FreeMatch(l, keylen, len) <==> (keylen, len) in Free(l)
  {
    hide HomesOk, KeysOk, DataOk, Means, Free;
    FreeHas(l, (keylen, len));
    assert ChainOk(l.heads, l.recs, l.chains[0], 0);
  }

  /** What the room says of a store is what the files say. */
  lemma AbortsIff(f: seq<byte>, l: Layout, dat: seq<byte>, m: map<Key, Data>, key: Key, data: Data, flag: Flag)
    requires Represents(f, l.heads, l.recs) && Good(l, dat, m)
    ensures StoreAborts(l, dat, m, key, data, flag) <==> Ends(Room(|f|, |dat|, Free(l)), m, StoreOp(key, data, flag))
  {
    hide Represents, Good, FreeMatch, Off, Free, Body;
    HeadsFit(f, l);
    MatchIsFree(l, dat, m, |key|, |data| + 1);
  }

  /** The room after a deletion. */
  lemma DeletedRoom(l: Layout, c: nat, k: nat)
    requires Linked(l) && 0 < c < NHEADS && k < |l.chains[c]| && l.chains[c][k] < |l.recs|
    ensures var r := l.recs[l.chains[c][k]]; Free(Deleted(l, c, k)) == Free(l) + multiset{(|r.key|, r.datlen)}
  {
    hide Free, Push;
    UnlinkKeeps(l, c, k);
    UnlinkSameBut(l, c, k);
    FreeUnlinkOther(l, c, k);
    FreePush(Unlink(l, c, k), l.chains[c][k], Blanks(|l.recs[l.chains[c][k]].key|));
  }

  /** Any sequence of calls on any well-formed database returns what it would on the map that the database means, up to
      the first call that ends the process; which one that is, if any, is decided by the room at the start. */
  method Run(db: Db, ops: seq<Op>) returns (replies: seq<Reply>, aborted: bool)
    requires db.Valid()
    requires forall i :: 0 <= i < |ops| && ops[i].StoreOp? ==> KeyOk(ops[i].key) && 0 !in ops[i].data
    modifies db
    ensures |replies| <= |ops| && (aborted <==> |replies| < |ops|)
    ensures replies == MapRun(old(db.contents), ops[..|replies|]).1
    ensures !aborted ==> db.Valid() && db.contents == MapRun(old(db.contents), ops).0
    ensures !aborted ==> db.RoomNow() == RoomRun(old(db.RoomNow()), old(db.contents), ops)
    ensures forall k :: 0 <= k < |replies| ==> !EndsAt(old(db.RoomNow()), old(db.contents), ops, k)
    ensures aborted ==> EndsAt(old(db.RoomNow()), old(db.contents), ops, |replies|)
  {
    hide MapRun, Represents, Good, RoomRun, RoomStep, StoreAborts, Free, Ends;
    ghost var room, m := db.RoomNow(), db.contents;
    replies, aborted := [], false;
    MapRunNone(m, ops);
    RoomRunNone(room, m, ops);
    for k := 0 to |ops|
      invariant db.Valid() && |replies| == k
      invariant MapRun(m, ops[..k]) == (db.contents, replies) && RoomRun(room, m, ops[..k]) == db.RoomNow()
      invariant forall j :: 0 <= j < k ==> !EndsAt(room, m, ops, j)
    {
      MapRunOne(m, ops, k);
      RoomRunOne(room, m, ops, k);
      var reply := Call(db, ops[k]);
      if reply == Returned(Aborted) {
        aborted := true;
        return;
      }
      replies := replies + [reply];
    }
    assert ops[..|ops|] == ops;
  }

  /** One call of a client. */
  method Call(db: Db, op: Op) returns (reply: Reply)
    requires db.Valid() && (op.StoreOp? ==> KeyOk(op.key) && 0 !in op.data)
    modifies db
    ensures reply == Returned(Aborted) <==> Ends(old(db.RoomNow()), old(db.contents), op)
    ensures reply != Returned(Aborted) ==>
      && db.Valid() && (db.contents, reply) == MapStep(old(db.contents), op)
      && db.RoomNow() == RoomStep(old(db.RoomNow()), old(db.contents), op)
  {
    hide Represents, Good, StoreAborts, Free, HasRoom, RoomOver, RoomNew;
    match op {
      case FetchOp(key) =>
        var r := db.Fetch(key);
        reply := Fetched(r);
      case DeleteOp(key) =>
        var rc := db.Delete(key);
        reply := Returned(Code(rc));
      case StoreOp(key, data, flag) =>
        var rc := db.StoreRecord(key, data, flag);
        reply := Returned(rc);
    }
  }

  lemma RoomRunNone(room: Room, m: map<Key, Data>, ops: seq<Op>)
    ensures RoomRun(room, m, ops[..0]) == room
  {
  }

  lemma MapRunNone(m: map<Key, Data>, ops: seq<Op>)
    ensures MapRun(m, ops[..0]) == (m, [])
  {
  }
}
