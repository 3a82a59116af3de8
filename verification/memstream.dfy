/** The in-memory stream of apue.3e/exercises/fmemopen.c. */
module MemStream {
  import opened Basics

  // ---------- a file of bounded size

  datatype File = File(data: seq<byte>, pos: nat)

  datatype Whence = FromStart | FromEnd | FromHere

  function Min(a: nat, b: nat): (m: nat) {
    if a < b then a else b
  }

  function Read(f: File, len: nat): (r: (File, seq<byte>))
    requires f.pos <= |f.data|
  {
    var n := Min(len, |f.data| - f.pos);
    (f.(pos := f.pos + n), f.data[f.pos..f.pos + n])
  }

  /** As much as fits is written, over what is there and on beyond it; in append mode always at the end. */
  function Write(f: File, bytes: seq<byte>, cap: nat, append: bool): (r: (File, nat))
    requires f.pos <= |f.data| <= cap
    ensures r.0.pos <= |r.0.data| <= cap
  {
    var off := if append then |f.data| else f.pos;
    var n := Min(|bytes|, cap - off);
    var rest := if off + n < |f.data| then f.data[off + n..] else [];
    (File(f.data[..off] + bytes[..n] + rest, off + n), n)
  }

  function Target(f: File, pos: int, whence: Whence): (off: int) {
    match whence
    case FromStart => pos
    case FromEnd => |f.data| + pos
    case FromHere => f.pos + pos
  }

  /** A position inside the file or at its end can be sought. */
  function Seek(f: File, pos: int, whence: Whence): (r: Option<File>) {
    var off := Target(f, pos, whence);
    if off < 0 || off > |f.data| then None else Some(f.(pos := off))
  }

  /** As many bytes are read as asked for, or all that are left, from the position on; the file is as it was. */
  lemma ReadGives(f: File, len: nat)
    requires f.pos <= |f.data|
    ensures var (g, b) := Read(f, len);
            && |b| <= len && (|b| == len || f.pos + |b| == |f.data|) && f.pos + |b| <= |f.data|
            && (forall i :: 0 <= i < |b| ==> b[i] == f.data[f.pos + i])
            && g.data == f.data && g.pos == f.pos + |b|
  {
  }

  /** As many bytes are written as given, or as there is room for, from the position on or, in append mode, from the end
      on; every other byte of the file is as it was. */
  lemma WriteTakes(f: File, bytes: seq<byte>, cap: nat, append: bool)
    requires f.pos <= |f.data| <= cap
    ensures var (g, n) := Write(f, bytes, cap, append);
            var off := if append then |f.data| else f.pos;
            && n <= |bytes| && off + n <= cap && (n == |bytes| || off + n == cap) && g.pos == off + n
            && |g.data| == (if off + n < |f.data| then |f.data| else off + n)
            && (forall i :: 0 <= i < n ==> g.data[off + i] == bytes[i])
            && (forall i :: 0 <= i < |f.data| && !(off <= i < off + n) ==> g.data[i] == f.data[i])
  {
  }

  /** In append mode the file grows by what is written, wherever the position was. */
  lemma AppendGrows(f: File, bytes: seq<byte>, cap: nat)
    requires f.pos <= |f.data| <= cap
    ensures var (g, n) := Write(f, bytes, cap, true); g.data == f.data + bytes[..n] && g.pos == |g.data|
  {
  }

  /** What was written is read back from where it was written. */
  lemma WriteReadBack(f: File, bytes: seq<byte>, cap: nat, append: bool)
    requires f.pos <= |f.data| <= cap
    ensures var (g, n) := Write(f, bytes, cap, append);
            var h := Seek(g, 0 - n, FromHere);
            h.Some? && h.value.pos <= |h.value.data| && Read(h.value, n) == (g, bytes[..n])
  {
  }

  /** Where each kind of seek lands, and when it fails. */
  lemma SeekLands(f: File, pos: int)
    ensures Seek(f, pos, FromStart) == if 0 <= pos <= |f.data| then Some(File(f.data, pos)) else None
    ensures Seek(f, pos, FromEnd) == if 0 <= |f.data| + pos <= |f.data| then Some(File(f.data, |f.data| + pos)) else None
    ensures Seek(f, pos, FromHere) == if 0 <= f.pos + pos <= |f.data| then Some(File(f.data, f.pos + pos)) else None
  {
  }

  /** A stream that cannot be read gets a NUL after every write: at the position, or over the last byte of a full
      buffer. */
  function WithNul(f: File, cap: nat): (f': File) {
    var z := if f.pos < cap then f.pos else cap - 1;
    if 0 <= z < |f.data| then f.(data := f.data[z := 0]) else f
  }

  /** The NUL leaves the file as it was written if and only if it falls outside of the file or on a NUL. */
  lemma NulHarmless(f: File, cap: nat)
    requires f.pos <= |f.data| <= cap && cap > 0
    ensures WithNul(f, cap) == f <==>
            (f.pos == |f.data| < cap) || (f.pos < |f.data| && f.data[f.pos] == 0) || (f.pos == cap && f.data[cap - 1] == 0)
  {
    var z := if f.pos < cap then f.pos else cap - 1;
    if z < |f.data| && f.data[z] != 0 {
      assert f.data[z := 0][z] != f.data[z];
    }
  }

  // ---------- the type argument

  /** 0 is told apart from every valid type. */
  datatype Flags = Flags(read: bool, write: bool, append: bool, truncate: bool)

  const NO_FLAGS := Flags(false, false, false, false)

  /** A valid type is one of r, w and a, followed by any number of + and b. */
  predicate IsType(t: string) {
    t != [] && (t[0] == 'r' || t[0] == 'w' || t[0] == 'a') && forall i :: 1 <= i < |t| ==> t[i] == '+' || t[i] == 'b'
  }

  function FlagsOf(t: string): (f: Flags)
    requires IsType(t)
  {
    var plus := '+' in t;
    Flags(t[0] == 'r' || plus, t[0] == 'w' || plus, t[0] == 'a', t[0] == 'w')
  }

  /** What each type asks for: r reads, w writes and truncates, a appends, and + makes any of them read and write. */
  lemma TypesAsk(t: string)
    requires IsType(t)
    ensures var f, plus := FlagsOf(t), exists i :: 1 <= i < |t| && t[i] == '+';
            && (t[0] == 'r' ==> f == Flags(true, plus, false, false))
            && (t[0] == 'w' ==> f == Flags(plus, true, false, true))
            && (t[0] == 'a' ==> f == Flags(plus, plus, true, false))
  {
  }

  method TypeToFlags(t: string) returns (f: Flags)
    ensures f == if IsType(t) then FlagsOf(t) else NO_FLAGS
  {
    f := NO_FLAGS;
    for i := 0 to |t|
      invariant i == 0 ==> f == NO_FLAGS
      invariant i > 0 ==> IsType(t[..i]) && f == FlagsOf(t[..i]) && f != NO_FLAGS
    {
      assert t[..i + 1] == t[..i] + [t[i]];
      match t[i]
      case 'r' => if f != NO_FLAGS { return NO_FLAGS; } f := f.(read := true);
      case 'w' => if f != NO_FLAGS { return NO_FLAGS; } f := f.(write := true, truncate := true);
      case 'a' => if f != NO_FLAGS { return NO_FLAGS; } f := f.(append := true);
      case '+' => if f == NO_FLAGS { return NO_FLAGS; } f := f.(read := true, write := true);
      case 'b' => if f == NO_FLAGS { return NO_FLAGS; }
      case _ => return NO_FLAGS;
    }
    assert t[..|t|] == t;
  }

  // ---------- the stream

  class Stream {
    var buf: array<byte>
    var vsize: nat
    var curpos: nat
    const flags: Flags

    ghost predicate Valid()
      reads this
    {
      curpos <= vsize <= buf.Length && buf.Length > 0
    }

    ghost function Contents(): (f: File)
      requires Valid()
      reads this, buf
    {
      File(buf[..vsize], curpos)
    }

    /** fmemopen once the arguments are found in order; `mine` says that it allocated the buffer itself. */
    constructor (b: array<byte>, t: string, mine: bool)
      requires b.Length > 0 && IsType(t)
      ensures Valid() && buf == b && flags == FlagsOf(t)
      ensures Contents() == Opened(b[..], flags, mine)
    {
      buf := b;
      var f := TypeToFlags(t);
      flags := f;
      var pos := 0;
      if f.append && !mine {
        pos := FindEnd(b);
      }
      curpos := pos;
      vsize := if f.append then pos else if f.truncate then 0 else b.Length;
    }

    method MRead(len: nat) returns (r: Option<seq<byte>>)
      requires Valid()
      modifies this`curpos
      ensures Valid() && (r.None? <==> !flags.read)
      ensures Contents() == (if flags.read then Read(old(Contents()), len).0 else old(Contents()))
      ensures flags.read ==> r.value == Read(old(Contents()), len).1
    {
      if !flags.read {
        return None;
      }
      if curpos >= vsize {
        return Some([]);
      }
      var nr := Min(len, vsize - curpos);
      r := Some(buf[curpos..curpos + nr]);
      curpos := curpos + nr;
    }

    method MWrite(bytes: seq<byte>) returns (r: Option<nat>)
      requires Valid()
      modifies this`curpos, this`vsize, buf
      ensures Valid() && (r.None? <==> !flags.write && !flags.append)
      ensures r.None? ==> Contents() == old(Contents())
      ensures r.Some? ==> var (f, n) := Write(old(Contents()), bytes, buf.Length, flags.append);
                          r.value == n && Contents() == if flags.read then f else WithNul(f, buf.Length)
    {
      if !flags.write && !flags.append {
        return None;
      }
      var nw := WriteAt(bytes);
      if !flags.read {
        PutNul();
      }
      r := Some(nw);
    }

    method WriteAt(bytes: seq<byte>) returns (nw: nat)
      requires Valid()
      modifies this`curpos, this`vsize, buf
      ensures Valid() && (Contents(), nw) == Write(old(Contents()), bytes, buf.Length, flags.append)
    {
      ghost var was := buf[..];
      var off := if flags.append then vsize else curpos;
      nw := Min(|bytes|, buf.Length - off);
      Written(was, vsize, off, bytes[..nw]);
      Copy(off, bytes[..nw]);
      curpos := off + nw;
      if curpos > vsize {
        vsize := curpos;
        PutEnd();
      }
    }

    /** The end mark of an update stream is outside of the file. */
    method PutEnd()
      requires Valid()
      modifies buf
      ensures buf[..vsize] == old(buf[..vsize])
    {
      if flags.read && flags.write && vsize < buf.Length {
        buf[vsize] := 0;
      }
    }

    method PutNul()
      requires Valid()
      modifies buf
      ensures Contents() == WithNul(old(Contents()), buf.Length)
    {
      if curpos < buf.Length {
        buf[curpos] := 0;
      } else {
        buf[buf.Length - 1] := 0;
      }
    }

    method Copy(off: nat, bytes: seq<byte>)
      requires off + |bytes| <= buf.Length
      modifies buf
      ensures buf[..] == old(buf[..off]) + bytes + old(buf[off + |bytes|..])
    {
      for i := 0 to |bytes|
        invariant buf[..off] == old(buf[..off]) && buf[off..off + i] == bytes[..i]
        invariant buf[off + i..] == old(buf[off + i..])
      {
        buf[off + i] := bytes[i];
        assert buf[off..off + i + 1] == buf[off..off + i] + [bytes[i]];
      }
      assert buf[..] == buf[..off] + buf[off..off + |bytes|] + buf[off + |bytes|..];
    }

    method MSeek(pos: int, whence: Whence) returns (r: int)
      requires Valid()
      modifies this`curpos
      ensures Valid()
      ensures match Seek(old(Contents()), pos, whence)
              case None => r == -1 && Contents() == old(Contents())
              case Some(f) => r == f.pos && Contents() == f
    {
      var off := pos;
      match whence {
        case FromStart =>
        case FromEnd => off := vsize + pos;
        case FromHere => off := curpos + pos;
      }
      if off < 0 || off > vsize {
        return -1;
      }
      curpos := off;
      r := off;
    }
  }

  lemma Written(was: seq<byte>, vsize: nat, off: nat, bytes: seq<byte>)
    requires off <= vsize <= |was| && off + |bytes| <= |was|
    ensures var now, n := was[..off] + bytes + was[off + |bytes|..], off + |bytes|;
            && |now| == |was|
            && now[..if n > vsize then n else vsize] ==
               was[..vsize][..off] + bytes + (if n < vsize then was[..vsize][n..] else [])
  {
  }

  function FirstNul(s: seq<byte>): (n: nat)
    ensures n <= |s| && (forall i :: 0 <= i < n ==> s[i] != 0) && (n < |s| ==> s[n] == 0)
    decreases |s|
  {
    if s == [] || s[0] == 0 then 0 else 1 + FirstNul(s[1..])
  }

  /** An append stream starts at the end of the string in the caller's buffer, a truncated one is empty, and one for
      reading has the whole buffer. */
  function Opened(b: seq<byte>, flags: Flags, mine: bool): (f: File) {
    if flags.append then if mine then File([], 0) else File(b[..FirstNul(b)], FirstNul(b))
    else if flags.truncate then File([], 0)
    else File(b, 0)
  }

  /** What a new stream on a caller's buffer has: for r all of the buffer, for w nothing, for a the string in it, with the
      position at its end. */
  lemma OpenedHas(b: seq<byte>, t: string)
    requires IsType(t)
    ensures var f := Opened(b, FlagsOf(t), false);
            && (t[0] == 'r' ==> f == File(b, 0)) && (t[0] == 'w' ==> f == File([], 0))
            && (t[0] == 'a' ==> f.pos == |f.data| && f.data <= b && 0 !in f.data && (|f.data| < |b| ==> b[|f.data|] == 0))
  {
  }

  /** fmemopen: a size of 0, an invalid type, and no buffer for a stream that is not for update are errors. */
  method Open(b: Option<array<byte>>, size: nat, t: string) returns (r: Option<Stream>)
    requires b.Some? ==> b.value.Length == size
    ensures r.Some? <==> size > 0 && IsType(t) && (b.None? ==> FlagsOf(t).read && FlagsOf(t).write)
    ensures r.Some? ==> fresh(r.value) && r.value.Valid() && r.value.flags == FlagsOf(t) && r.value.buf.Length == size
    ensures r.Some? && b.Some? ==> r.value.buf == b.value && r.value.Contents() == Opened(b.value[..], FlagsOf(t), false)
    ensures r.Some? && b.None? ==> r.value.Contents() == Opened(r.value.buf[..], FlagsOf(t), true)
  {
    if size == 0 {
      return None;
    }
    var flags := TypeToFlags(t);
    if flags == NO_FLAGS {
      return None;
    }
    if b.Some? {
      var s := new Stream(b.value, t, false);
      return Some(s);
    }
    if !flags.read || !flags.write {
      return None;
    }
    var mine := new byte[size];
    var s := new Stream(mine, t, true);
    r := Some(s);
  }

  method FindEnd(buf: array<byte>) returns (off: nat)
    ensures off == FirstNul(buf[..])
  {
    off := 0;
    while off < buf.Length && buf[off] != 0
      invariant off <= buf.Length && forall i :: 0 <= i < off ==> buf[i] != 0
    {
      off := off + 1;
    }
    ghost var s := buf[..];
    assert forall i :: 0 <= i < |s| ==> s[i] == buf[i];
  }

  // ---------- any sequence of operations on a stream that can be read and written

  datatype Op = ReadOp(len: nat) | WriteOp(bytes: seq<byte>) | SeekOp(pos: int, whence: Whence)
  datatype Reply = Bytes(b: seq<byte>) | Number(n: int)

  function FileStep(f: File, op: Op, cap: nat, append: bool): (r: (File, Reply))
    requires f.pos <= |f.data| <= cap
    ensures r.0.pos <= |r.0.data| <= cap
  {
    match op
    case ReadOp(len) => var (g, b) := Read(f, len); (g, Bytes(b))
    case WriteOp(bytes) => var (g, n) := Write(f, bytes, cap, append); (g, Number(n))
    case SeekOp(pos, whence) =>
      var s := Seek(f, pos, whence);
      if s.None? then (f, Number(-1)) else (s.value, Number(s.value.pos))
  }

  /** The file and the replies after the first k operations. */
  function FileRun(f: File, ops: seq<Op>, k: nat, cap: nat, append: bool): (r: (File, seq<Reply>))
    requires f.pos <= |f.data| <= cap && k <= |ops|
    ensures r.0.pos <= |r.0.data| <= cap && |r.1| == k
    decreases k
  {
    if k == 0 then (f, [])
    else
      var (g, replies) := FileRun(f, ops, k - 1, cap, append);
      var (h, reply) := FileStep(g, ops[k - 1], cap, append);
      (h, replies + [reply])
  }

  /** An update stream replies what the file would, whatever it is asked. */
  method RunOps(s: Stream, ops: seq<Op>) returns (replies: seq<Reply>)
    requires s.Valid() && s.flags.read && s.flags.write
    modifies s, s.buf
    ensures s.Valid() && s.buf == old(s.buf)
    ensures (s.Contents(), replies) == FileRun(old(s.Contents()), ops, |ops|, s.buf.Length, s.flags.append)
  {
    replies := [];
    ghost var f := s.Contents();
    for k := 0 to |ops|
      invariant s.Valid() && s.buf == old(s.buf)
      invariant (s.Contents(), replies) == FileRun(f, ops, k, s.buf.Length, s.flags.append)
    {
      match ops[k] {
        case ReadOp(len) =>
          var r := s.MRead(len);
          replies := replies + [Bytes(r.value)];
        case WriteOp(bytes) =>
          var r := s.MWrite(bytes);
          replies := replies + [Number(r.value)];
        case SeekOp(pos, whence) =>
          var r := s.MSeek(pos, whence);
          replies := replies + [Number(r)];
      }
    }
  }
}
