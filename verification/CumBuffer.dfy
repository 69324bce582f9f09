/** The circular byte buffer, in place over an array, refined to a plain queue of bytes. */
module CumBuffers {
  import opened Header
  import opened Cursors

  datatype OpResult = OpOk | NoData | BufferFull | InvalidLen

  /** `Unread` of two memories, byte by byte: `d` over `after` holds what `c` over `before` held,
      followed by `data`. */
  lemma UnreadAppended(before: seq<Byte>, c: Cursors, after: seq<Byte>, d: Cursors, data: seq<Byte>)
    requires c.Ok() && |before| == c.cap && d.Ok() && |after| == d.cap
    requires d.fill == c.fill + |data|
    requires forall k: nat :: k < c.fill ==> after[d.Position(k)] == before[c.Position(k)]
    requires forall k: nat :: c.fill <= k < d.fill ==> after[d.Position(k)] == data[k - c.fill]
    ensures Unread(after, d) == Unread(before, c) + data
  {
  }

  /** The oldest `n` unread bytes lie in one block, or in two when they reach past the end. */
  lemma UnreadPrefix(mem: seq<Byte>, c: Cursors, n: nat)
    requires c.Ok() && |mem| == c.cap && n <= c.fill
    ensures Unread(mem, c)[..n] ==
            if c.read + n <= c.cap then mem[c.read..c.read + n]
            else mem[c.read..] + mem[..n - (c.cap - c.read)]
  {
  }

  lemma UnreadConsumed(mem: seq<Byte>, c: Cursors, n: nat)
    requires c.Ok() && |mem| == c.cap && n <= c.fill
    ensures c.Consumed(n).Ok() && Unread(mem, c.Consumed(n)) == Unread(mem, c)[n..]
  {
    ConsumedPositions(c, n);
  }

  /** The bytes that `PeekData` and `GetData` copy out, in one block or two. */
  function Oldest(mem: seq<Byte>, c: Cursors, n: nat): (s: seq<Byte>)
    requires c.InBounds() && |mem| == c.cap && c.Yields(n)
    ensures |s| == n
  {
    if c.read + n <= c.cap then mem[c.read..c.read + n] else mem[c.read..] + mem[..n - (c.cap - c.read)]
  }

  /** While the cursors are in line, they are the oldest unread bytes, whenever there are so many. */
  lemma OldestUnread(mem: seq<Byte>, c: Cursors, n: nat)
    requires c.Ok() && |mem| == c.cap
    ensures c.Yields(n) <==> 0 < c.fill && n <= c.fill
    ensures c.Yields(n) ==> Oldest(mem, c, n) == Unread(mem, c)[..n]
  {
    if c.Yields(n) { UnreadPrefix(mem, c, n); }
  }

  /** A memory after `bytes` have been written at offset `at`. */
  function Overwritten(mem: seq<Byte>, at: nat, bytes: seq<Byte>): (s: seq<Byte>)
    requires at + |bytes| <= |mem|
    ensures |s| == |mem|
    ensures forall i :: 0 <= i < |s| ==> s[i] == if at <= i < at + |bytes| then bytes[i - at] else mem[i]
  {
    mem[..at] + bytes + mem[at + |bytes|..]
  }

  lemma UnreadFilled(mem: seq<Byte>, c: Cursors, n: nat)
    requires c.Ok() && |mem| == c.cap && c.fill < c.cap && c.Rewound() == c && n <= c.LinearFree()
    ensures c.Increased(n).Ok()
    ensures Unread(mem, c.Increased(n)) == Unread(mem, c) + mem[c.write..c.write + n]
  {
    FilledWindow(c, n);
    UnreadAppended(mem, c, mem, c.Increased(n), mem[c.write..c.write + n]);
  }

  /** `memcpy` of `src` to offset `at` of `dst`. */
  method CopyInto(dst: array<Byte>, at: nat, src: seq<Byte>)
    requires at + |src| <= dst.Length
    modifies dst
    ensures forall i :: 0 <= i < dst.Length ==>
              dst[i] == if at <= i < at + |src| then src[i - at] else old(dst[i])
  {
    forall i | 0 <= i < |src| { dst[at + i] := src[i]; }
  }

  class CumBuffer {
    var mem: array<Byte>       // buffer_ptr_
    var bufferLen: nat         // buffer_len_
    var cumulatedLen: nat      // cumulated_len_
    var curRead: nat           // cur_read_
    var curWrite: nat          // cur_write_
    var isInfinite: bool       // is_infinite_buffer_

    function Cur(): Cursors
      reads this
    {
      Cursors(bufferLen, curRead, curWrite, cumulatedLen)
    }

    predicate Valid()
      reads this
    {
      mem.Length == bufferLen && Cur().Ok()
    }

    /** What holds even after a growth that has put the cursors out of line. */
    predicate InBounds()
      reads this
    {
      mem.Length == bufferLen && Cur().InBounds()
    }

    /** The abstract value: the queue of bytes not yet consumed. */
    ghost function Contents(): (s: seq<Byte>)
      requires Valid()
      reads this, mem
      ensures |s| == cumulatedLen
    {
      Unread(mem[..], Cur())
    }

    constructor Init(maxBufferLen: nat)
      ensures Valid() && fresh(mem) && Contents() == [] && !isInfinite
      ensures Cur() == Cursors(maxBufferLen, 0, 0, 0)
    {
      mem := new Byte[maxBufferLen];
      bufferLen, cumulatedLen, curRead, curWrite := maxBufferLen, 0, 0, 0;
      isInfinite := false;
    }

    constructor InitAutoGrowing(defaultLen: nat)
      ensures Valid() && fresh(mem) && Contents() == [] && isInfinite
      ensures Cur() == Cursors(defaultLen, 0, 0, 0)
    {
      mem := new Byte[defaultLen];
      bufferLen, cumulatedLen, curRead, curWrite := defaultLen, 0, 0, 0;
      isInfinite := true;
    }

    /** The doubled array of a growing branch: `first` bytes from offset `from`, then `second`
        bytes from the start, by way of a temporary copy. */
    method Doubled(from: nat, first: nat, second: nat) returns (bigger: array<Byte>)
      requires Valid() && from + first <= bufferLen && first + second <= bufferLen
      ensures fresh(bigger) && bigger.Length == bufferLen * 2
      ensures forall i :: 0 <= i < first ==> bigger[i] == mem[from + i]
      ensures forall i :: first <= i < first + second ==> bigger[i] == mem[i - first]
    {
      var tmp := new Byte[bufferLen];
      CopyInto(tmp, 0, mem[from..from + first]);
      CopyInto(tmp, first, mem[..second]);
      bigger := new Byte[bufferLen * 2];
      CopyInto(bigger, 0, tmp[..]);
    }

    /** AUTO GROW 1 and 4: the unread bytes do not wrap, and keep their offsets. */
    method GrowInPlace(data: seq<Byte>)
      requires Valid() && Cur().Contiguous() && |data| <= bufferLen
      modifies this
      ensures Valid() && fresh(mem) && isInfinite == old(isInfinite)
      ensures bufferLen == old(bufferLen) * 2 && Contents() == old(Contents()) + data
      ensures Cur().Contiguous()
    {
      ghost var c, before := Cur(), mem[..];
      var bigger := Doubled(0, bufferLen, 0);
      CopyInto(bigger, curWrite, data);
      mem := bigger;
      curWrite := curWrite + |data|;
      cumulatedLen := cumulatedLen + |data|;
      bufferLen := bufferLen * 2;
      UnreadAppended(before, c, mem[..], Cur(), data);
    }

    /** AUTO GROW 2 and 3: the unread bytes wrap, and move to the start of the new array. */
    method GrowRotated(data: seq<Byte>, from: nat, second: nat, newWrite: nat)
      requires Valid() && |data| <= bufferLen
      requires from == curRead && bufferLen - from + second == cumulatedLen && second <= from
      requires newWrite == cumulatedLen + |data|
      modifies this
      ensures Valid() && fresh(mem) && isInfinite == old(isInfinite)
      ensures bufferLen == old(bufferLen) * 2 && Contents() == old(Contents()) + data
      ensures Cur().Contiguous()
    {
      ghost var c, before := Cur(), mem[..];
      var bigger := Doubled(from, bufferLen - from, second);
      CopyInto(bigger, cumulatedLen, data);
      mem := bigger;
      curRead, curWrite := 0, newWrite;
      cumulatedLen := cumulatedLen + |data|;
      bufferLen := bufferLen * 2;
      UnreadAppended(before, c, mem[..], Cur(), data);
    }

    /** The data fits in one piece after the write cursor. */
    method WriteLinear(data: seq<Byte>)
      requires Valid() && cumulatedLen < bufferLen
      requires if curWrite < curRead then |data| <= curRead - curWrite else curWrite + |data| <= bufferLen
      modifies this, mem
      ensures Valid() && mem == old(mem) && isInfinite == old(isInfinite)
      ensures bufferLen == old(bufferLen) && Contents() == old(Contents()) + data
      ensures curRead == old(curRead)
    {
      ghost var c, before := Cur(), mem[..];
      CopyInto(mem, curWrite, data);
      curWrite := curWrite + |data|;
      cumulatedLen := cumulatedLen + |data|;
      UnreadAppended(before, c, mem[..], Cur(), data);
    }

    /** The data fits in two pieces, up to the end and from the start. */
    method WriteSplit(data: seq<Byte>)
      requires Valid() && cumulatedLen < bufferLen
      requires curRead <= curWrite && 0 < curWrite
      requires bufferLen < curWrite + |data| && |data| - (bufferLen - curWrite) <= curRead
      modifies this, mem
      ensures Valid() && mem == old(mem) && isInfinite == old(isInfinite)
      ensures bufferLen == old(bufferLen) && Contents() == old(Contents()) + data
      ensures curRead == old(curRead)
    {
      ghost var c, before := Cur(), mem[..];
      var firstBlock := bufferLen - curWrite;
      CopyInto(mem, curWrite, data[..firstBlock]);
      CopyInto(mem, 0, data[firstBlock..]);
      curWrite := |data| - firstBlock;
      cumulatedLen := cumulatedLen + |data|;
      UnreadAppended(before, c, mem[..], Cur(), data);
    }

    /** An auto-growing buffer doubles when it is full or the data exceeds its free space. */
    predicate NeedsGrowth(len: nat)
      requires Valid()
      reads this
    {
      isInfinite && (cumulatedLen == bufferLen || len > bufferLen - cumulatedLen)
    }

    method Append(data: seq<Byte>) returns (r: OpResult)
      requires Valid()
      modifies this, mem
      ensures Valid() && isInfinite == old(isInfinite)
      ensures r == InvalidLen <==> |data| > old(bufferLen)
      ensures r == OpOk <==>
              && |data| <= old(bufferLen)
              && (isInfinite ||
                  (old(cumulatedLen) < old(bufferLen) && |data| <= old(bufferLen - cumulatedLen)))
      ensures r in {OpOk, InvalidLen, BufferFull}
      ensures r != OpOk ==> mem == old(mem) && Cur() == old(Cur()) && Contents() == old(Contents())
      ensures r == OpOk ==> Contents() == old(Contents()) + data
      ensures r == OpOk && old(NeedsGrowth(|data|)) ==>
                fresh(mem) && bufferLen == old(bufferLen) * 2 && Cur().Contiguous()
      ensures r == OpOk && !old(NeedsGrowth(|data|)) ==>
                mem == old(mem) && bufferLen == old(bufferLen) && curRead == old(curRead)
    {
      var len := |data|;
      if bufferLen < len {
        return InvalidLen;
      } else if bufferLen == cumulatedLen {
        if isInfinite {
          if curRead == 0 && curWrite == bufferLen {
            GrowInPlace(data);                                                  // AUTO GROW 1
            return OpOk;
          } else {
            assert curWrite == curRead;              // tested at asock_buffer.hpp:128, always true
            GrowRotated(data, curWrite, curRead, bufferLen + len);              // AUTO GROW 2
            return OpOk;
          }
        } else {
          return BufferFull;
        }
      }
      if curWrite < curRead {
        if curRead - curWrite >= len {
          WriteLinear(data);
          return OpOk;
        } else if isInfinite {
          GrowRotated(data, curRead, curWrite, bufferLen + len - (curRead - curWrite));   // AUTO GROW 3
          return OpOk;
        } else {
          return BufferFull;
        }
      } else if bufferLen < curWrite + len {
        if curWrite > 0 && len - (bufferLen - curWrite) <= curRead {
          WriteSplit(data);
          return OpOk;
        } else if isInfinite {
          GrowInPlace(data);                                                    // AUTO GROW 4
          return OpOk;
        } else {
          return BufferFull;
        }
      } else {
        WriteLinear(data);
        return OpOk;
      }
    }

    function ValidateBuffer(len: nat): (r: OpResult)
      reads this
      ensures r == OpOk <==> 0 < cumulatedLen && len <= cumulatedLen
      ensures r == NoData <==> cumulatedLen == 0
      ensures r in {OpOk, NoData, InvalidLen}
    {
      if cumulatedLen == 0 then NoData else if cumulatedLen < len then InvalidLen else OpOk
    }

    method PeekData(len: nat) returns (r: OpResult, out: seq<Byte>)
      requires InBounds()
      ensures r == OpOk <==> Cur().Yields(len)
      ensures out == if r == OpOk then Oldest(mem[..], Cur(), len) else []
      ensures Valid() ==> r == ValidateBuffer(len) && out == if r == OpOk then Contents()[..len] else []
    {
      out := [];
      OldestInLine(len);
      r := ValidateBuffer(len);
      if r != OpOk {
        return;
      }
      if curWrite > curRead {
        if curWrite < curRead + len {
          return InvalidLen, [];
        }
        out := mem[curRead..curRead + len];
      } else if bufferLen < curRead + len {
        var firstBlock := bufferLen - curRead;
        var secondBlock := len - firstBlock;
        if curWrite <= 0 || curWrite < secondBlock {
          return InvalidLen, [];
        }
        out := mem[curRead..] + mem[..secondBlock];
      } else {
        out := mem[curRead..curRead + len];
      }
    }

    /** In a sound buffer the tests after the first two never fail. */
    lemma OldestInLine(len: nat)
      requires InBounds()
      ensures Valid() ==> (ValidateBuffer(len) == OpOk <==> Cur().Yields(len))
      ensures Valid() && Cur().Yields(len) ==>
                && Oldest(mem[..], Cur(), len) == Contents()[..len]
                && Cur().Consumed(len).Ok() && Unread(mem[..], Cur().Consumed(len)) == Contents()[len..]
    {
      if Valid() {
        OldestUnread(mem[..], Cur(), len);
        if Cur().Yields(len) { UnreadConsumed(mem[..], Cur(), len); }
      }
    }

    method ConsumeData(len: nat) returns (r: OpResult)
      requires InBounds()
      modifies `curRead, `cumulatedLen
      ensures InBounds() && (r == OpOk <==> old(Cur()).Yields(len))
      ensures Cur() == if r == OpOk then old(Cur()).Consumed(len) else old(Cur())
      ensures old(Valid()) ==>
                Valid() && r == old(ValidateBuffer(len))
                && Contents() == if r == OpOk then old(Contents())[len..] else old(Contents())
    {
      OldestInLine(len);
      r := ValidateBuffer(len);
      if r != OpOk {
        return;
      }
      if curWrite > curRead {
        if curWrite < curRead + len {
          return InvalidLen;
        }
        curRead := curRead + len;
      } else if bufferLen < curRead + len {
        var firstBlock := bufferLen - curRead;
        var secondBlock := len - firstBlock;
        if curWrite <= 0 || curWrite < secondBlock {
          return InvalidLen;
        }
        curRead := secondBlock;
      } else {
        curRead := curRead + len;
      }
      cumulatedLen := cumulatedLen - len;
    }

    /** Same outcome and state as `PeekData` followed by `ConsumeData`. */
    method GetData(len: nat) returns (r: OpResult, out: seq<Byte>)
      requires InBounds()
      modifies `curRead, `cumulatedLen
      ensures InBounds() && (r == OpOk <==> old(Cur()).Yields(len))
      ensures out == if r == OpOk then Oldest(mem[..], old(Cur()), len) else []
      ensures Cur() == if r == OpOk then old(Cur()).Consumed(len) else old(Cur())
      ensures old(Valid()) ==>
                && Valid() && r == old(ValidateBuffer(len))
                && out == (if r == OpOk then old(Contents())[..len] else [])
                && Contents() == (if r == OpOk then old(Contents())[len..] else old(Contents()))
    {
      OldestInLine(len);
      out := [];
      r := ValidateBuffer(len);
      if r != OpOk {
        return;
      }
      if curWrite > curRead {
        if curWrite < curRead + len {
          return InvalidLen, [];
        }
        out := mem[curRead..curRead + len];
        curRead := curRead + len;
      } else if bufferLen < curRead + len {
        var firstBlock := bufferLen - curRead;
        var secondBlock := len - firstBlock;
        if curWrite <= 0 || curWrite < secondBlock {
          return InvalidLen, [];
        }
        out := mem[curRead..] + mem[..secondBlock];
        curRead := secondBlock;
      } else {
        out := mem[curRead..curRead + len];
        curRead := curRead + len;
      }
      cumulatedLen := cumulatedLen - len;
    }

    method GetLinearFreeSpace() returns (n: nat)
      requires InBounds()
      ensures n == Cur().LinearFree()
      ensures Valid() && cumulatedLen < bufferLen ==> 0 < n && cumulatedLen + n <= bufferLen
    {
      if Valid() { WindowIsFree(Cur()); }
      if curWrite == bufferLen {
        return bufferLen - cumulatedLen;
      } else if curRead < curWrite {
        return bufferLen - curWrite;
      } else if curRead > curWrite {
        return curRead - curWrite;
      } else {
        return bufferLen - curWrite;
      }
    }

    /** Returns the offset of the window. Not a plain getter: a write cursor at the end moves to
        the start, without changing the queue. */
    method GetLinearAppendPtr() returns (at: nat)
      requires InBounds()
      modifies `curWrite
      ensures InBounds() && Cur() == old(Cur()).Rewound() && at == curWrite
      ensures old(Valid()) ==> Valid() && Contents() == old(Contents())
    {
      if Valid() { WindowIsFree(Cur()); }
      if curWrite == bufferLen {
        if bufferLen != cumulatedLen {
          curWrite := 0;
        }
      }
      at := curWrite;
    }

    /** A sound buffer has granted a window, and `n` bytes fit it. */
    predicate HasWindow(n: nat)
      reads this
    {
      Valid() && cumulatedLen < bufferLen && Cur().Rewound() == Cur() && n <= Cur().LinearFree()
    }

    /** What the kernel does with the granted window: no unread byte of a sound buffer is touched. */
    method DirectWrite(at: nat, bytes: seq<Byte>)
      requires InBounds() && at + |bytes| <= bufferLen
      modifies mem
      ensures mem[..] == Overwritten(old(mem[..]), at, bytes)
      ensures at == curWrite && HasWindow(|bytes|) ==> Contents() == old(Contents())
    {
      ghost var before := mem[..];
      CopyInto(mem, at, bytes);
      if at == curWrite && HasWindow(|bytes|) {
        WindowIsFree(Cur());
        UnreadAppended(before, Cur(), mem[..], Cur(), []);
      }
    }

    /** After a direct write of `len` bytes at the start of the window granted by a sound buffer,
        exactly those bytes are appended. */
    method IncreaseData(len: nat)
      requires InBounds() && curWrite + len <= bufferLen
      requires cumulatedLen + len <= bufferLen                 // asserted at asock_buffer.hpp:503
      modifies `curWrite, `cumulatedLen
      ensures InBounds() && Cur() == old(Cur()).Increased(len)
      ensures old(HasWindow(len)) ==>
                Valid() && Contents() == old(Contents()) + mem[old(curWrite)..old(curWrite) + len]
    {
      if HasWindow(len) { UnreadFilled(mem[..], Cur(), len); }
      curWrite := curWrite + len;
      cumulatedLen := cumulatedLen + len;
    }

    method ReSet()
      requires Valid()
      modifies this
      ensures Valid() && mem == old(mem) && isInfinite == old(isInfinite)
      ensures Cur() == old(Cur()).Emptied() && Contents() == []
    {
      cumulatedLen, curRead, curWrite := 0, 0, 0;
    }

    /** Copies the raw bytes and keeps both cursors, so the result is a valid buffer exactly when
        the cursors stand in line; the unread bytes are then preserved. */
    method IncreaseBufferAndCopyExisting(len: nat)
      requires InBounds() && len > bufferLen
      modifies `mem, `bufferLen
      ensures fresh(mem) && InBounds() && Cur() == old(Cur()).Grown(len)
      ensures mem[..] == old(mem[..]) + seq(len - old(bufferLen), _ => 0)
      ensures old(Valid()) ==> (Valid() <==> old(Cur().Contiguous()))
      ensures old(Valid()) && Valid() ==> Contents() == old(Contents())
    {
      if Valid() { GrowthBoundary(Cur(), len); }
      ghost var c, before := Cur(), mem[..];
      var oldBufferLen := bufferLen;
      var oldBuffer := new Byte[oldBufferLen];
      CopyInto(oldBuffer, 0, mem[..]);
      bufferLen := len;
      mem := new Byte[bufferLen](_ => 0);
      CopyInto(mem, 0, oldBuffer[..]);
      assert mem[..] == before + seq(len - oldBufferLen, _ => 0);
      if c.Ok() && Valid() {
        UnreadAppended(before, c, mem[..], Cur(), []);
      }
    }
  }
}
