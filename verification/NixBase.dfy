/** A connection's context and the methods of the socket base class that work on it, in place. */
module NixBases {
  import opened Header
  import opened Framing
  import opened Cursors
  import opened CumBuffers
  import opened RawReceive
  import opened Receive
  import opened Send

  /** What one `recv` call returns: bytes, an orderly end, or an error. */
  datatype RecvEvent = Received(bytes: seq<Byte>) | PeerClosed | RecvError

  /** An error return, or an orderly end, brings no bytes. */
  function BytesOf(ev: RecvEvent): seq<Byte> { if ev.Received? then ev.bytes else [] }

  /** `Proceed` and `Disconnected` are the source's true and false. `Undefined` is a failed assertion,
      or a header whose reading has no defined result. */
  datatype RecvResult = Proceed | Disconnected | Undefined

  function ResultOf(fate: Fate): RecvResult {
    match fate
    case Runs => Proceed
    case Refused => Disconnected
    case Lost => Undefined
  }

  /** `max_data_len_` after a buffer has gone from capacity `was` to `cap`. */
  function CapacityFor(maxDataLen: nat, was: nat, cap: nat): nat { if cap > was then cap else maxDataLen }

  class Context {
    const recvBuffer: CumBuffer
    var isPacketLenCalculated: bool
    var completePacketLen: nat
    var pendingSendDeque: seq<seq<Byte>>
    var isSentPending: bool
    var wantOut: bool                   // kernel side: EPOLLOUT is in the interest mask
    var wire: seq<Byte>                 // kernel side: bytes accepted by send
    var delivered: seq<seq<Byte>>       // user side: payloads given to the callback

    constructor (capacity: nat)
      ensures fresh(recvBuffer) && fresh(recvBuffer.mem) && recvBuffer.Valid()
      ensures View().InLine() && View().View() == Fresh(capacity) && SendView() == FreshSend()
    {
      recvBuffer := new CumBuffer.Init(capacity);
      isPacketLenCalculated, completePacketLen := false, 0;
      pendingSendDeque, isSentPending, wantOut := [], false, false;
      wire, delivered := [], [];
    }

    function Cached(): Option<nat>
      reads this
    {
      if isPacketLenCalculated then Some(completePacketLen) else None
    }

    /** The receive half, as it is stored. */
    ghost function View(): Raw
      reads this, recvBuffer, recvBuffer.mem
    {
      Raw(recvBuffer.mem[..], recvBuffer.Cur(), Cached(), delivered)
    }

    function SendView(): SendState
      reads this
    {
      SendState(wire, pendingSendDeque, isSentPending, wantOut)
    }
  }

  class NixBase {
    var maxDataLen: nat                 // max_data_len_

    method SetBufferCapacity(maxLen: nat) returns (ok: bool)
      modifies this
      ensures ok <==> maxLen > 0
      ensures maxDataLen == if ok then maxLen else old(maxDataLen)
    {
      if maxLen <= 0 {
        return false;
      }
      maxDataLen := maxLen;
      return true;
    }

    /** The send loop, with no send pending. */
    method SendLoop(ctx: Context, dataBuffer: seq<Byte>, os: seq<SockResult>, epollOk: bool) returns (ok: bool)
      requires dataBuffer != [] && !ctx.isSentPending
      modifies ctx`pendingSendDeque, ctx`isSentPending, ctx`wantOut, ctx`wire
      ensures var w := WriteAll(old(ctx.SendView()), dataBuffer, 0, os, epollOk);
              ctx.SendView() == w.state && ok == w.status.ok
    {
      var totalSent, calls := 0, 0;
      while totalSent < |dataBuffer|
        invariant totalSent <= |dataBuffer| && calls <= |os|
        invariant !ctx.isSentPending
        invariant WriteRest(ctx.SendView(), dataBuffer, totalSent, os[calls..], epollOk)
               == WriteAll(old(ctx.SendView()), dataBuffer, 0, os, epollOk)
        decreases |dataBuffer| - totalSent, |os| - calls
      {
        var result := Head(os[calls..]);
        var remained := dataBuffer[totalSent..];
        if result.Accepts? || result.Interrupted? {
          WriteRestStep(ctx.SendView(), dataBuffer, totalSent, os[calls..], epollOk);
        }
        match result {
          case Accepts(n) =>
            var sentLen := Min(n, |remained|);
            ctx.wire := ctx.wire + remained[..sentLen];
            totalSent := totalSent + sentLen;
          case WouldBlock =>
            ctx.pendingSendDeque := ctx.pendingSendDeque + [remained];
            if !epollOk {
              ctx.pendingSendDeque := ctx.pendingSendDeque[..|ctx.pendingSendDeque| - 1];
              return false;
            }
            ctx.wantOut := true;
            ctx.isSentPending := true;
            return true;
          case Interrupted =>
          case Failed =>
            return false;
        }
        assert os[calls..][1..] == os[calls + 1..];
        calls := calls + 1;
      }
      return true;
    }

    /** `os` are the results of the successive `send` calls, `epollOk` that of re-arming EPOLLOUT. */
    method SendData(ctx: Context, msg: Message, os: seq<SockResult>, epollOk: bool) returns (ok: bool)
      modifies ctx`pendingSendDeque, ctx`isSentPending, ctx`wantOut, ctx`wire
      ensures var w := SendCall(old(ctx.SendView()), msg.Frame(), os, epollOk);
              ctx.SendView() == w.state && ok == w.status.ok
      ensures ok == SendReturns(old(ctx.SendView()), msg.Frame(), os, epollOk)
      ensures ctx.SendView() == SendLeaves(old(ctx.SendView()), msg.Frame(), os, epollOk)
    {
      SendCallOutcome(ctx.SendView(), msg.Frame(), os, epollOk);
      var header := PrintHeader(|msg.payload|, msg.stale);
      if ctx.isSentPending {
        ctx.pendingSendDeque := ctx.pendingSendDeque + [header + msg.payload];
        if !epollOk {
          ctx.pendingSendDeque := ctx.pendingSendDeque[..|ctx.pendingSendDeque| - 1];
          return false;
        }
        ctx.wantOut := true;
        return true;
      }
      ok := SendLoop(ctx, header + msg.payload, os, epollOk);
    }

    method SendPendingData(ctx: Context, os: seq<SockResult>, epollOk: bool) returns (ok: bool)
      modifies ctx`pendingSendDeque, ctx`isSentPending, ctx`wantOut, ctx`wire
      ensures (ctx.SendView(), ok) == DrainCall(old(ctx.SendView()), os, epollOk)
      ensures old(ctx.SendView().Ok()) ==>
                DrainOutcome(old(ctx.SendView()), Telling(os), epollOk, ctx.SendView(), ok)
    {
      if ctx.SendView().Ok() { DrainCallOutcome(ctx.SendView(), os, epollOk); }
      var calls := 0;
      while ctx.pendingSendDeque != []
        invariant calls <= |os|
        invariant DrainCall(ctx.SendView(), os[calls..], epollOk)
               == DrainCall(old(ctx.SendView()), os, epollOk)
        decreases |os| - calls, |ctx.pendingSendDeque|
      {
        var result := Head(os[calls..]);
        var front := ctx.pendingSendDeque[0];
        match result {
          case Accepts(n) =>
            var sentLen := Min(n, |front|);
            assert sentLen == 0 ==> ctx.wire + front[..sentLen] == ctx.wire;
            ctx.wire := ctx.wire + front[..sentLen];
            if sentLen > 0 {
              if sentLen == |front| {
                ctx.pendingSendDeque := ctx.pendingSendDeque[1..];
                if ctx.pendingSendDeque == [] {
                  ctx.isSentPending := false;
                  if !epollOk {
                    return false;
                  }
                  ctx.wantOut := false;
                  break;
                }
              } else {
                ctx.pendingSendDeque := ctx.pendingSendDeque[1..];
                ctx.pendingSendDeque := [front[sentLen..]] + ctx.pendingSendDeque;
                break;
              }
            }
          case WouldBlock =>
            break;
          case Interrupted =>
          case Failed =>
            return false;
        }
        assert os[calls..][1..] == os[calls + 1..];
        calls := calls + 1;
      }
      return true;
    }

    /** The frame length the buffered header announces, `MORE_TO_COME` before it is complete, or
        `None` if it cannot be read. A length beyond the capacity has the buffer grown in place. */
    method OnCalculateDataLen(ctx: Context) returns (r: Option<nat>)
      requires ctx.View().Ok() && !ctx.isPacketLenCalculated
      modifies this, ctx.recvBuffer`mem, ctx.recvBuffer`bufferLen
      ensures old(ctx.recvBuffer.cumulatedLen) < HEADER_SIZE ==>
                r == Some(MORE_TO_COME) && ctx.View() == old(ctx.View()) && maxDataLen == old(maxDataLen)
      ensures old(ctx.recvBuffer.cumulatedLen) >= HEADER_SIZE ==>
                var m := Measured(old(ctx.View()));
                && r == (if m.fate.Runs? then m.raw.cached else None)
                && ctx.View() == m.raw.(cached := None)
                && maxDataLen == CapacityFor(old(maxDataLen), old(ctx.recvBuffer.bufferLen), m.raw.cur.cap)
      ensures r.Some? && r.value > old(ctx.recvBuffer.bufferLen) ==>
                ctx.recvBuffer.bufferLen == maxDataLen == 2 * r.value
      ensures r.None? || r.value <= old(ctx.recvBuffer.bufferLen) ==>
                ctx.recvBuffer.bufferLen == old(ctx.recvBuffer.bufferLen) && maxDataLen == old(maxDataLen)
      ensures if ctx.recvBuffer.bufferLen == old(ctx.recvBuffer.bufferLen)
              then ctx.recvBuffer.mem == old(ctx.recvBuffer.mem) else fresh(ctx.recvBuffer.mem)
    {
      if ctx.recvBuffer.cumulatedLen < HEADER_SIZE {
        return Some(MORE_TO_COME);
      }
      var result, header := ctx.recvBuffer.PeekData(HEADER_SIZE);
      if result != OpOk {
        return None;                      // the result is not tested, so the header stays uninitialised
      }
      r := FrameLen(header);
      if r.None? {
        return;
      }
      var supposedTotalLen := r.value;
      if supposedTotalLen > ctx.recvBuffer.bufferLen {
        ctx.recvBuffer.IncreaseBufferAndCopyExisting(supposedTotalLen * 2);
        var _ := SetBufferCapacity(supposedTotalLen * 2);
      }
    }

    /** The kernel fills the window, and the bytes are counted in. */
    method TakeIn(buf: CumBuffer, at: nat, bytes: seq<Byte>)
      requires buf.InBounds() && at == buf.curWrite && at + |bytes| <= buf.bufferLen
      requires buf.cumulatedLen + |bytes| <= buf.bufferLen
      modifies buf`curWrite, buf`cumulatedLen, buf.mem
      ensures buf.InBounds() && buf.Cur() == old(buf.Cur()).Increased(|bytes|)
      ensures buf.mem[..] == Overwritten(old(buf.mem[..]), at, bytes)
      ensures old(buf.HasWindow(|bytes|)) ==> buf.Valid() && buf.Contents() == old(buf.Contents()) + bytes
    {
      buf.DirectWrite(at, bytes);
      buf.IncreaseData(|bytes|);
    }

    /** The zero-copy receive: one `recv` into the window the buffer grants. `None`: an assertion fails. */
    method Recv(ctx: Context, ev: RecvEvent) returns (recvedLen: Option<int>)
      requires ctx.View().Ok() && |BytesOf(ev)| <= ctx.View().cur.LinearFree()
      modifies ctx.recvBuffer`curWrite, ctx.recvBuffer`cumulatedLen, ctx.recvBuffer.mem
      ensures var t := Admitted(old(ctx.View()), BytesOf(ev));
              && (recvedLen.None? <==> t.None?)
              && (t.Some? ==> recvedLen.value == (if ev.RecvError? then -1 else |BytesOf(ev)|)
                              && ctx.View() == t.value)
    {
      var buf := ctx.recvBuffer;
      WindowInBounds(buf.Cur());
      ghost var s := ctx.View();
      var freeLinearLen := buf.GetLinearFreeSpace();
      if freeLinearLen == 0 {
        return None;                                          // asserted at asock_nix_base.hpp:385
      }
      var at := buf.GetLinearAppendPtr();
      var bytes := BytesOf(ev);
      if buf.cumulatedLen + |bytes| > buf.bufferLen {
        return None;                                          // asserted at asock_buffer.hpp:503
      }
      TakeIn(buf, at, bytes);
      assert buf.mem[..] == Overwritten(s.mem, at, bytes);
      return Some(if ev.RecvError? then -1 else |bytes|);
    }

    /** The frame length is calculated only when necessary. */
    method CalculateOnce(ctx: Context) returns (known: bool)
      requires ctx.View().Ok() && ctx.recvBuffer.cumulatedLen != 0
      modifies this, ctx`isPacketLenCalculated, ctx`completePacketLen, ctx.recvBuffer`mem, ctx.recvBuffer`bufferLen
      ensures ctx.recvBuffer.mem == old(ctx.recvBuffer.mem) || fresh(ctx.recvBuffer.mem)
      ensures var s := old(ctx.View());
              var a := Delivering(s);
              if !known then
                a.fate.Lost? && ctx.View() == a.raw == s && maxDataLen == old(maxDataLen)
              else
                && ctx.isPacketLenCalculated
                && if ctx.completePacketLen == MORE_TO_COME then
                     a.fate.Runs? && ctx.View().(cached := None) == a.raw == s && maxDataLen == old(maxDataLen)
                   else
                     ctx.View().Ok() && SameEnd(Delivering(ctx.View()), a) && ctx.View().cur.fill == s.cur.fill
                     && maxDataLen == CapacityFor(old(maxDataLen), s.cur.cap, ctx.View().cur.cap)
                     && (if ctx.View().cur.cap != s.cur.cap then s.cur.fill < ctx.completePacketLen
                         else ctx.recvBuffer.mem == old(ctx.recvBuffer.mem))
    {
      ghost var s := ctx.View();
      if ctx.isPacketLenCalculated {
        return true;
      }
      var len := OnCalculateDataLen(ctx);
      if len.None? {
        return false;
      }
      ctx.completePacketLen := len.value;
      ctx.isPacketLenCalculated := true;
      if s.cur.fill >= HEADER_SIZE { MeasuredFirst(s, ctx.View()); }
      return true;
    }

    /** One round of the delivery loop. Either `RecvData` returns here, or a whole frame has gone
        to the callback and at least a header's worth of bytes has been consumed. */
    method DeliverRound(ctx: Context) returns (r: Option<RecvResult>)
      requires ctx.View().Ok() && ctx.recvBuffer.cumulatedLen != 0
      modifies this, ctx`isPacketLenCalculated, ctx`completePacketLen, ctx`delivered, ctx.recvBuffer
      ensures ctx.View().Ok()
      ensures ctx.recvBuffer.mem == old(ctx.recvBuffer.mem) || fresh(ctx.recvBuffer.mem)
      ensures var s := old(ctx.View());
              var a := Delivering(s);
              match r
              case None =>
                && ctx.recvBuffer.mem == old(ctx.recvBuffer.mem) && ctx.View().cur.cap == s.cur.cap
                && maxDataLen == old(maxDataLen)
                && ctx.recvBuffer.cumulatedLen + HEADER_SIZE <= s.cur.fill
                && SameEnd(Delivering(ctx.View()), a)
              case Some(result) =>
                && result == ResultOf(a.fate) && ctx.View() == a.raw
                && maxDataLen == CapacityFor(old(maxDataLen), s.cur.cap, a.raw.cur.cap)
    {
      var known := CalculateOnce(ctx);
      if !known {
        return Some(Undefined);
      }
      if ctx.completePacketLen == MORE_TO_COME {
        ctx.isPacketLenCalculated := false;
        return Some(Proceed);
      } else if ctx.completePacketLen > ctx.recvBuffer.cumulatedLen {
        return Some(Proceed);
      }
      var delivered := DeliverPacket(ctx);
      return if delivered then None else Some(Disconnected);
    }

    /** A complete packet leaves the buffer for the callback, unless `GetData` refuses. */
    method DeliverPacket(ctx: Context) returns (ok: bool)
      requires ctx.View().Ok() && ctx.isPacketLenCalculated
      requires 0 < ctx.completePacketLen <= ctx.recvBuffer.cumulatedLen
      modifies ctx`delivered, ctx`isPacketLenCalculated, ctx.recvBuffer`curRead, ctx.recvBuffer`cumulatedLen
      ensures ctx.View().Ok() && !ctx.isPacketLenCalculated
      ensures ok <==> old(ctx.View()).cur.Yields(old(ctx.completePacketLen))
      ensures ok ==> Delivering(ctx.View()) == Delivering(old(ctx.View()))
                     && ctx.recvBuffer.cumulatedLen + ctx.completePacketLen == old(ctx.recvBuffer.cumulatedLen)
      ensures !ok ==> Called(ctx.View(), Refused, false) == Delivering(old(ctx.View()))
    {
      var result, packet := ctx.recvBuffer.GetData(ctx.completePacketLen);
      if result != OpOk {
        ctx.isPacketLenCalculated := false;
        return false;
      }
      ctx.delivered := ctx.delivered + [packet[HEADER_SIZE..]];
      ctx.isPacketLenCalculated := false;
      return true;
    }

    /** The delivery loop. */
    method DeliverAll(ctx: Context) returns (r: RecvResult)
      requires ctx.View().Ok()
      modifies this, ctx`isPacketLenCalculated, ctx`completePacketLen, ctx`delivered, ctx.recvBuffer
      ensures ctx.recvBuffer.mem == old(ctx.recvBuffer.mem) || fresh(ctx.recvBuffer.mem)
      ensures var s := old(ctx.View());
              var a := Delivering(s);
              && r == ResultOf(a.fate) && ctx.View() == a.raw
              && maxDataLen == CapacityFor(old(maxDataLen), s.cur.cap, a.raw.cur.cap)
    {
      ghost var s := ctx.View();
      while ctx.recvBuffer.cumulatedLen != 0
        invariant ctx.View().Ok() && ctx.recvBuffer.mem == old(ctx.recvBuffer.mem)
        invariant ctx.View().cur.cap == s.cur.cap && maxDataLen == old(maxDataLen)
        invariant SameEnd(Delivering(ctx.View()), Delivering(s))
        decreases ctx.recvBuffer.cumulatedLen
      {
        var round := DeliverRound(ctx);
        if round.Some? {
          return round.value;
        }
      }
      return Proceed;
    }

    /** Ends in the state of `Calling`, about which `SoundFinishes` and `TakingKeeps` are proved. */
    method RecvData(ctx: Context, ev: RecvEvent) returns (r: RecvResult)
      requires ctx.View().Ok() && |BytesOf(ev)| <= ctx.View().cur.LinearFree()
      requires ev.Received? ==> ev.bytes != []
      modifies this, ctx`isPacketLenCalculated, ctx`completePacketLen, ctx`delivered, ctx.recvBuffer,
               ctx.recvBuffer.mem
      ensures ctx.SendView() == old(ctx.SendView())
      ensures ctx.recvBuffer.mem == old(ctx.recvBuffer.mem) || fresh(ctx.recvBuffer.mem)
      ensures var s := old(ctx.View());
              var c := Calling(s, BytesOf(ev));
              && (r == Proceed <==> c.fate.Runs? && !ev.PeerClosed?)
              && (r == Disconnected <==> c.fate.Refused? || (c.fate.Runs? && ev.PeerClosed?))
              && (r == Undefined <==> c.fate.Lost?)
              && (!c.fate.Lost? ==>
                    ctx.View() == c.raw
                    && maxDataLen == CapacityFor(old(maxDataLen), s.cur.cap, c.raw.cur.cap))
    {
      var recvedLen := Recv(ctx, ev);
      if recvedLen.None? {
        return Undefined;
      }
      if recvedLen.value > 0 {
        r := DeliverAll(ctx);
        return;
      } else if recvedLen.value == 0 {
        return Disconnected;
      }
      return Proceed;
    }
  }

  /** Two calls that leave the same behind. */
  predicate SameEnd(c: Called, d: Called) { c.raw == d.raw && c.fate == d.fate }

  /** With the header measured, the rest of the call is as before; growing ends it. */
  lemma MeasuredFirst(s: Raw, t: Raw)
    requires s.Ok() && s.cur.fill >= HEADER_SIZE && s.cached.None? && Measured(s).fate.Runs?
    requires t == Measured(s).raw
    ensures SameEnd(Delivering(t), Delivering(s))
    ensures t.cur.cap != s.cur.cap ==> t.cur.fill < t.cached.value && Delivering(t).raw == t
  {
  }

  /** A call that has left `m` and returned `r` has ended in the receive state `a`, unless it met an
      unreadable header; `m` is sound again unless the buffer was grown out of line. */
  ghost predicate Finished(m: Raw, a: RecvState, r: RecvResult) {
    if Stuck(a.unread) then r == Undefined
    else
      && r == Proceed && m.cur == a.cur && m.cached == a.cached && m.delivered == a.delivered
      && (a.Ok() ==> m.Sound() && m.View() == a)
  }

  /** What `RecvData` does to a sound context. */
  lemma SoundFinishes(s: Raw, bytes: seq<Byte>)
    requires s.Sound() && |bytes| <= s.cur.LinearFree()
    ensures Finished(Calling(s, bytes).raw, After(s.View(), bytes), ResultOf(Calling(s, bytes).fate))
    ensures Calling(s, bytes).fate.Lost? ==> Stuck(After(s.View(), bytes).unread)
  {
    CallRefines(s, bytes);
  }
}
