/** The framed receive: what one `RecvData` call does to a context, and what any run of calls does. */
module Receive {
  import opened Header
  import opened Framing
  import opened Cursors

  /** The receive half of a context. `cached` is `complete_packet_len` while
      `is_packet_len_calculated` holds; `delivered` is what the user's callback has been given. */
  datatype RecvState = RecvState(cur: Cursors, unread: seq<Byte>, cached: Option<nat>,
                                 delivered: seq<seq<Byte>>)
  {
    /** What holds between calls. */
    predicate Ok() {
      && cur.Ok() && |unread| == cur.fill && cur.cap >= HEADER_SIZE
      && cached == FirstLen(unread) && !Stuck(unread)
      && (cached.Some? ==> |unread| < cached.value <= cur.cap)
    }
  }

  /** A new or recycled context with a receive buffer of `cap` bytes. */
  function Fresh(cap: nat): RecvState {
    RecvState(Cursors(cap, 0, 0, 0), [], None, [])
  }

  /** Bytes of the frames that carried these payloads. */
  function FramedLen(payloads: seq<seq<Byte>>): nat {
    if payloads == [] then 0 else HEADER_SIZE + |payloads[0]| + FramedLen(payloads[1..])
  }

  function ConsumedAll(c: Cursors, payloads: seq<seq<Byte>>): (d: Cursors)
    requires c.Ok() && FramedLen(payloads) <= c.fill
    ensures d.Ok() && d.cap == c.cap && d.write == c.write && d.fill == c.fill - FramedLen(payloads)
    decreases |payloads|
  {
    if payloads == [] then c
    else
      ConsumedPositions(c, HEADER_SIZE + |payloads[0]|);
      ConsumedAll(c.Consumed(HEADER_SIZE + |payloads[0]|), payloads[1..])
  }

  lemma {:induction false} SplitLengths(s: seq<Byte>)
    ensures FramedLen(Split(s).payloads) + |Split(s).rest| == |s|
    decreases |s|
  {
    var n := FirstLen(s);
    if n.Some? && n.value <= |s| { SplitLengths(s[n.value..]); }
  }

  /** `bytes` is something one `recv` call may return: no longer than the window. No bytes at all
      stand for an error return, which still moves the write cursor. */
  predicate Receivable(s: RecvState, bytes: seq<Byte>) {
    s.Ok() && |bytes| <= s.cur.LinearFree()
  }

  /** The cursors once every complete frame has been delivered. */
  ghost function Drained(s: RecvState, bytes: seq<Byte>): (c: Cursors)
    requires Receivable(s, bytes)
    ensures c.Ok() && c.cap == s.cur.cap && c.fill == |Split(s.unread + bytes).rest|
    ensures c.write == s.cur.Rewound().write + |bytes|
  {
    FilledWindow(s.cur, |bytes|);
    SplitLengths(s.unread + bytes);
    ConsumedAll(s.cur.Rewound().Increased(|bytes|), Split(s.unread + bytes).payloads)
  }

  /** All complete frames of `all` are delivered, the rest stays, and a header announcing more
      than the capacity has the buffer grown to twice that. */
  function Settled(c: Cursors, all: seq<Byte>, delivered: seq<seq<Byte>>): RecvState
    requires c.Ok() && c.fill == |all|
  {
    SplitLengths(all);
    var p := Split(all);
    var d := ConsumedAll(c, p.payloads);
    var n := FirstLen(p.rest);
    RecvState(if n.Some? && n.value > c.cap then d.Grown(n.value * 2) else d,
              p.rest, n, delivered + p.payloads)
  }

  /** The state after `RecvData` has received `bytes`. */
  function After(s: RecvState, bytes: seq<Byte>): RecvState
    requires Receivable(s, bytes)
  {
    FilledWindow(s.cur, |bytes|);
    Settled(s.cur.Rewound().Increased(|bytes|), s.unread + bytes, s.delivered)
  }

  /** Without a complete frame there is nothing to deliver. */
  lemma SettledNone(c: Cursors, all: seq<Byte>, delivered: seq<seq<Byte>>)
    requires c.Ok() && c.fill == |all| && (FirstLen(all).None? || FirstLen(all).value > |all|)
    ensures var n := FirstLen(all);
            var d := if n.Some? && n.value > c.cap then c.Grown(n.value * 2) else c;
            Settled(c, all, delivered) == RecvState(d, all, n, delivered)
  {
    assert delivered + [] == delivered;
  }

  lemma SplitFirst(all: seq<Byte>, n: nat)
    requires FirstLen(all) == Some(n) && n <= |all|
    ensures var p, q := Split(all), Split(all[n..]);
            && p.payloads == [all[..n][HEADER_SIZE..]] + q.payloads && p.payloads[1..] == q.payloads
            && p.rest == q.rest && |p.payloads[0]| == n - HEADER_SIZE
  {
    assert all[..n][HEADER_SIZE..] == all[HEADER_SIZE..n];
  }

  /** The cursors consume the first frame, then the others. */
  lemma ConsumedStep(c: Cursors, all: seq<Byte>, n: nat)
    requires c.Ok() && c.fill == |all| && FirstLen(all) == Some(n) && n <= |all|
    ensures FramedLen(Split(all).payloads) <= c.fill
    ensures c.Consumed(n).Ok() && FramedLen(Split(all[n..]).payloads) <= c.Consumed(n).fill
    ensures ConsumedAll(c, Split(all).payloads) == ConsumedAll(c.Consumed(n), Split(all[n..]).payloads)
  {
    ConsumedPositions(c, n);
    SplitFirst(all, n);
    SplitLengths(all);
    SplitLengths(all[n..]);
  }

  lemma FirstMoved<T>(a: seq<T>, x: T, b: seq<T>)
    ensures a + ([x] + b) == (a + [x]) + b
  {
  }

  /** Delivering the first frame leaves the same to be done. */
  lemma SettledStep(c: Cursors, all: seq<Byte>, delivered: seq<seq<Byte>>, n: nat)
    requires c.Ok() && c.fill == |all| && FirstLen(all) == Some(n) && n <= |all|
    ensures c.Consumed(n).Ok()
    ensures Settled(c.Consumed(n), all[n..], delivered + [all[..n][HEADER_SIZE..]])
         == Settled(c, all, delivered)
  {
    ConsumedStep(c, all, n);
    SplitFirst(all, n);
    FirstMoved(delivered, all[..n][HEADER_SIZE..], Split(all[n..]).payloads);
  }

  /** The buffer is grown while its cursors do not stand in line: its unread bytes wrap around its
      end, or start at its beginning with the read cursor still at its end. */
  ghost predicate GrowsWrapped(s: RecvState, bytes: seq<Byte>)
    requires Receivable(s, bytes)
  {
    var n := FirstLen(Split(s.unread + bytes).rest);
    n.Some? && n.value > s.cur.cap && !Drained(s, bytes).Contiguous()
  }

  // ------------------------------------------------------------------ one call

  /** One call keeps the receive invariant exactly when it neither grows a wrapped buffer nor meets
      an unreadable header. Unless it meets one, it leaves room, so the next call has a window. */
  lemma AfterOk(s: RecvState, bytes: seq<Byte>)
    requires Receivable(s, bytes)
    ensures var a := After(s, bytes);
            && a.cur.fill == |a.unread|
            && (!Stuck(a.unread) ==> a.cur.fill < a.cur.cap)
            && (a.cur.Ok() <==> !GrowsWrapped(s, bytes))
            && (a.Ok() <==> !GrowsWrapped(s, bytes) && !Stuck(a.unread))
  {
    var a := After(s, bytes);
    var c := Drained(s, bytes);
    SplitRestIsUnsplit(s.unread + bytes);
    if a.cached.Some? && a.cached.value > c.cap {
      GrowthBoundary(c, a.cached.value * 2);
    }
  }

  /** A `recv` that returns an error costs nothing: the same bytes wait, the same are delivered. */
  lemma AfterNothing(s: RecvState)
    requires s.Ok()
    ensures Receivable(s, []) && After(s, []) == s.(cur := s.cur.Rewound()) && After(s, []).Ok()
  {
    WindowIsFree(s.cur);
    assert s.unread + [] == s.unread;
    assert s.delivered + [] == s.delivered;
  }

  lemma OkHasWindow(s: RecvState)
    requires s.Ok()
    ensures s.cur.LinearFree() > 0
  {
    WindowIsFree(s.cur);
  }

  // ----------------------------------------------------------------- all runs

  /** Every chunk is one the buffer could be given when it arrives. */
  ghost predicate Feasible(s: RecvState, chunks: seq<seq<Byte>>)
    decreases |chunks|
  {
    chunks == [] || (Receivable(s, chunks[0]) && Feasible(After(s, chunks[0]), chunks[1..]))
  }

  ghost function Run(s: RecvState, chunks: seq<seq<Byte>>): RecvState
    requires Feasible(s, chunks)
    decreases |chunks|
  {
    if chunks == [] then s else Run(After(s, chunks[0]), chunks[1..])
  }

  /** `end` has delivered and kept what the splitter yields on `bytes` more, from `s` on. */
  ghost predicate Follows(end: RecvState, s: RecvState, bytes: seq<Byte>) {
    end.delivered == s.delivered + Split(s.unread + bytes).payloads
    && end.unread == Split(s.unread + bytes).rest
  }

  lemma FollowsInTwo(s: RecvState, b: seq<Byte>, mid: RecvState, later: seq<Byte>, end: RecvState)
    requires Follows(mid, s, b) && Follows(end, mid, later)
    ensures Follows(end, s, b + later)
  {
    SplitInTwo(s.unread, b, later);
    SameTriple(s.delivered, Split(s.unread + b).payloads, Split(mid.unread + later).payloads);
  }

  lemma SplitInTwo(u: seq<Byte>, b: seq<Byte>, later: seq<Byte>)
    ensures var p, q := Split(u + b), Split(Split(u + b).rest + later);
            Split(u + (b + later)) == Parsed(p.payloads + q.payloads, q.rest)
  {
    assert u + (b + later) == (u + b) + later;
    SplitAppend(u + b, later);
  }

  lemma SameTriple<T>(a: seq<T>, b: seq<T>, c: seq<T>)
    ensures (a + b) + c == a + (b + c)
  {
  }

  /** However the stream is cut, the calls deliver what the one-shot splitter yields on all the
      bytes so far, and keep its unparsed tail. Growth is allowed, and so is a last call that
      corrupts the buffer. */
  lemma {:induction false} RunIsSplit(s: RecvState, chunks: seq<seq<Byte>>)
    requires Feasible(s, chunks) && Split(s.unread) == Parsed([], s.unread)
    ensures Follows(Run(s, chunks), s, Concat(chunks))
    decreases |chunks|
  {
    if chunks == [] {
      assert s.unread + [] == s.unread;
    } else {
      var a := After(s, chunks[0]);
      SplitRestIsUnsplit(s.unread + chunks[0]);
      RunIsSplit(a, chunks[1..]);
      FollowsInTwo(s, chunks[0], a, Concat(chunks[1..]), Run(s, chunks));
    }
  }

  /** Two receivers of any capacities, given the same bytes in any pieces, agree. */
  lemma ChunkIndependence(cap: nat, chunks: seq<seq<Byte>>, cap': nat, chunks': seq<seq<Byte>>)
    requires Feasible(Fresh(cap), chunks) && Feasible(Fresh(cap'), chunks')
    requires Concat(chunks) == Concat(chunks')
    ensures Run(Fresh(cap), chunks).delivered == Run(Fresh(cap'), chunks').delivered
    ensures Run(Fresh(cap), chunks).unread == Run(Fresh(cap'), chunks').unread
    ensures Run(Fresh(cap), chunks).delivered == Split(Concat(chunks)).payloads
  {
    RunIsSplit(Fresh(cap), chunks);
    RunIsSplit(Fresh(cap'), chunks');
    assert [] + Concat(chunks) == Concat(chunks);
  }

  // -------------------------------------------- streams that never grow a wrapped buffer

  /** The header of a frame that has the buffer grown was completed by the call that grows it. */
  lemma GrowingHeaderIsNew(s: RecvState, bytes: seq<Byte>)
    requires Receivable(s, bytes)
    ensures var rest := Split(s.unread + bytes).rest;
            FirstLen(rest).Some? && FirstLen(rest).value > s.cur.cap ==> |rest| < |bytes| + HEADER_SIZE
  {
    var all := s.unread + bytes;
    if |Split(all).rest| >= |bytes| + HEADER_SIZE {
      FirstLenOfPrefix(s.unread, bytes);
    }
  }

  /** A growing call finds the cursors in line exactly when the header lies in one piece, given the
      read cursor it starts at. */
  lemma GrowsWrappedExactly(s: RecvState, bytes: seq<Byte>)
    requires Receivable(s, bytes)
    ensures var n := FirstLen(Split(s.unread + bytes).rest);
            GrowsWrapped(s, bytes)
            <==> n.Some? && n.value > s.cur.cap && Drained(s, bytes).read + HEADER_SIZE > s.cur.cap
  {
    GrowingHeaderIsNew(s, bytes);
  }

  /** Where the read cursor stands once a frame of `n` bytes has been consumed. */
  function NextRead(cap: nat, read: nat, n: nat): nat {
    if cap < read + n then read + n - cap else read + n
  }

  /** The capacity that holds a frame of `n` bytes. */
  function GrownCap(cap: nat, n: nat): nat { if n > cap then 2 * n else cap }

  /** Among the frames of `s`, one beyond the capacity of the moment begins fewer than ten bytes
      before the end of the buffer, and its header is there. */
  predicate Breaks(cap: nat, read: nat, s: seq<Byte>)
    decreases |s|
  {
    var n := FirstLen(s);
    if n.None? then false
    else if n.value > cap && read + HEADER_SIZE > cap then true
    else
      var grown := GrownCap(cap, n.value);
      n.value <= |s| && Breaks(grown, NextRead(grown, read, n.value), s[n.value..])
  }

  /** The capacity and the read cursor once the complete frames of `s` have been delivered. */
  function Stand(cap: nat, read: nat, s: seq<Byte>): (nat, nat)
    decreases |s|
  {
    var n := FirstLen(s);
    if n.None? then (cap, read)
    else
      var grown := GrownCap(cap, n.value);
      if n.value > |s| then (grown, read) else Stand(grown, NextRead(grown, read, n.value), s[n.value..])
  }

  lemma FirstOfMore(s: seq<Byte>, t: seq<Byte>)
    requires FirstLen(s).Some?
    ensures FirstLen(s + t) == FirstLen(s)
    ensures FirstLen(s).value <= |s| ==> (s + t)[FirstLen(s).value..] == s[FirstLen(s).value..] + t
  {
    FirstLenOfPrefix(s, t);
  }

  /** What has broken the buffer stays broken whatever follows. */
  lemma {:induction false} BreaksOn(cap: nat, read: nat, s: seq<Byte>, t: seq<Byte>)
    requires Breaks(cap, read, s)
    ensures Breaks(cap, read, s + t)
    decreases |s|
  {
    var n := FirstLen(s);
    FirstOfMore(s, t);
    if !(n.value > cap && read + HEADER_SIZE > cap) {
      var grown := GrownCap(cap, n.value);
      BreaksOn(grown, NextRead(grown, read, n.value), s[n.value..], t);
    }
  }

  /** What follows is decided by where the receiver stands and the tail it keeps. */
  lemma {:induction false} StandAppend(cap: nat, read: nat, s: seq<Byte>, t: seq<Byte>)
    requires !Breaks(cap, read, s) && !Stuck(Split(s).rest)
    ensures var (c, r) := Stand(cap, read, s);
            && (Breaks(cap, read, s + t) <==> Breaks(c, r, Split(s).rest + t))
            && Stand(cap, read, s + t) == Stand(c, r, Split(s).rest + t)
    decreases |s|
  {
    var n := FirstLen(s);
    if n.Some? {
      var grown := GrownCap(cap, n.value);
      FirstOfMore(s, t);
      if n.value <= |s| {
        StandAppend(grown, NextRead(grown, read, n.value), s[n.value..], t);
      }
    }
  }

  lemma ConsumedRead(c: Cursors, n: nat)
    requires c.Ok() && n <= c.fill
    ensures c.Consumed(n).read == NextRead(c.cap, c.read, n)
  {
  }

  /** Consuming complete frames, all within the capacity, moves the read cursor as their sizes say. */
  lemma {:induction false} ConsumingStands(c: Cursors, all: seq<Byte>)
    requires c.Ok() && c.fill == |all|
    ensures FramedLen(Split(all).payloads) <= c.fill
    ensures var d := ConsumedAll(c, Split(all).payloads);
            && (Breaks(c.cap, c.read, all) <==> Breaks(c.cap, d.read, Split(all).rest))
            && Stand(c.cap, c.read, all) == Stand(c.cap, d.read, Split(all).rest)
    decreases |all|
  {
    SplitLengths(all);
    var n := FirstLen(all);
    if n.Some? && n.value <= |all| {
      ConsumedStep(c, all, n.value);
      ConsumedRead(c, n.value);
      SplitFirst(all, n.value);
      ConsumingStands(c.Consumed(n.value), all[n.value..]);
    }
  }

  /** One call keeps the buffer sound exactly when the bytes do not break it, and they alone say where
      it leaves the capacity and the read cursor. */
  lemma CallStands(s: RecvState, bytes: seq<Byte>)
    requires Receivable(s, bytes) && !Stuck(After(s, bytes).unread)
    ensures var a := After(s, bytes);
            && (a.Ok() <==> !Breaks(s.cur.cap, s.cur.read, s.unread + bytes))
            && (a.cur.cap, a.cur.read) == Stand(s.cur.cap, s.cur.read, s.unread + bytes)
  {
    FilledWindow(s.cur, |bytes|);
    ConsumingStands(s.cur.Rewound().Increased(|bytes|), s.unread + bytes);
    SplitRestIsUnsplit(s.unread + bytes);
    GrowsWrappedExactly(s, bytes);
    AfterOk(s, bytes);
  }

  lemma SoundStands(s: RecvState)
    requires s.Ok()
    ensures !Breaks(s.cur.cap, s.cur.read, s.unread)
    ensures Stand(s.cur.cap, s.cur.read, s.unread) == (s.cur.cap, s.cur.read)
  {
  }

  /** Any run of calls that meets no unreadable header leaves the buffer sound exactly when the bytes
      so far do not break it: the bytes decide, not how they are cut. */
  lemma {:induction false} RunStands(s: RecvState, chunks: seq<seq<Byte>>)
    requires s.Ok() && Feasible(s, chunks) && !Stuck(Run(s, chunks).unread)
    ensures var a := Run(s, chunks);
            && (a.Ok() <==> !Breaks(s.cur.cap, s.cur.read, s.unread + Concat(chunks)))
            && (a.cur.cap, a.cur.read) == Stand(s.cur.cap, s.cur.read, s.unread + Concat(chunks))
    decreases |chunks|
  {
    if chunks == [] {
      SoundStands(s);
      assert s.unread + [] == s.unread;
    } else {
      var b, later := chunks[0], Concat(chunks[1..]);
      var m := After(s, b);
      assert s.unread + (b + later) == (s.unread + b) + later;
      if chunks[1..] == [] {
        assert b + [] == b;
        CallStands(s, b);
      } else {
        CallStands(s, b);
        StandAppend(s.cur.cap, s.cur.read, s.unread + b, later);
        RunStands(m, chunks[1..]);
      }
    }
  }

  // --------------------------------------------------------- the sizes of the frames

  /** The same in terms of the frames of which the first `k` bytes have come. */
  ghost predicate BreaksBy(cap: nat, read: nat, ms: seq<Message>, k: int)
    decreases |ms|
  {
    if ms == [] then false
    else
      var n := ms[0].Size();
      if n > cap && read + HEADER_SIZE > cap then k >= HEADER_SIZE
      else k >= n && BreaksBy(GrownCap(cap, n), NextRead(GrownCap(cap, n), read, n), ms[1..], k - n)
  }

  /** No frame beyond the capacity of the moment begins fewer than ten bytes before the end of the
      buffer. */
  ghost predicate Safe(cap: nat, read: nat, ms: seq<Message>)
    decreases |ms|
  {
    if ms == [] then true
    else
      var n := ms[0].Size();
      && (n > cap ==> read + HEADER_SIZE <= cap)
      && Safe(GrownCap(cap, n), NextRead(GrownCap(cap, n), read, n), ms[1..])
  }

  /** Whether the first bytes of a framed stream break the buffer depends on the sizes of the frames
      and on how many bytes there are. */
  lemma {:induction false} SizesBreak(cap: nat, read: nat, ms: seq<Message>, s: seq<Byte>)
    requires AllPrintable(ms) && s <= Frames(ms)
    ensures Breaks(cap, read, s) <==> BreaksBy(cap, read, ms, |s|)
    decreases |ms|
  {
    if ms != [] {
      var n := ms[0].Size();
      FrameBoundary(ms, s);
      if |s| >= HEADER_SIZE {
        FirstLenOfFrame(ms[0], s);
        if n <= |s| && !(n > cap && read + HEADER_SIZE > cap) {
          SizesBreak(GrownCap(cap, n), NextRead(GrownCap(cap, n), read, n), ms[1..], s[n..]);
        }
      }
    }
  }

  lemma {:induction false} SafeNeverBreaks(cap: nat, read: nat, ms: seq<Message>, k: int)
    ensures Safe(cap, read, ms) ==> !BreaksBy(cap, read, ms, k)
    ensures k >= |Frames(ms)| ==> (Safe(cap, read, ms) <==> !BreaksBy(cap, read, ms, k))
    decreases |ms|
  {
    if ms != [] {
      var n := ms[0].Size();
      SafeNeverBreaks(GrownCap(cap, n), NextRead(GrownCap(cap, n), read, n), ms[1..], k - n);
    }
  }

  /** From a fresh context, under every chunking of every prefix of a framed stream: the receiver is
      sound exactly as long as the bytes that have come do not reach the header of a frame that
      breaks the buffer. */
  lemma SoundExactly(cap: nat, ms: seq<Message>, chunks: seq<seq<Byte>>)
    requires cap >= HEADER_SIZE && AllPrintable(ms)
    requires Feasible(Fresh(cap), chunks) && Concat(chunks) <= Frames(ms)
    ensures Run(Fresh(cap), chunks).Ok() <==> !BreaksBy(cap, 0, ms, |Concat(chunks)|)
  {
    RunIsSplit(Fresh(cap), chunks);
    assert [] + Concat(chunks) == Concat(chunks);
    SplitPrefix(ms, Concat(chunks));
    RunStands(Fresh(cap), chunks);
    SizesBreak(cap, 0, ms, Concat(chunks));
  }

  /** The frames are received intact, and the receiver stays sound, under every chunking of every
      prefix of the stream. */
  ghost predicate Intact(cap: nat, ms: seq<Message>) {
    forall chunks :: Feasible(Fresh(cap), chunks) && Concat(chunks) <= Frames(ms) ==>
      Run(Fresh(cap), chunks).Ok()
  }

  /** Byte by byte, an unsafe stream leads to the call that breaks the buffer. */
  lemma {:induction false} Corrupting(s: RecvState, later: seq<Byte>) returns (chunks: seq<seq<Byte>>)
    requires s.Ok() && Breaks(s.cur.cap, s.cur.read, s.unread + later)
    ensures Feasible(s, chunks) && Concat(chunks) <= later && !Run(s, chunks).Ok()
    decreases |later|
  {
    if later == [] {
      assert s.unread + [] == s.unread;
      SoundStands(s);
      assert false;
    } else {
      var m := NextByte(s, later);
      var more := [];
      if m.Ok() { more := Corrupting(m, later[1..]); }
      chunks := [later[..1]] + more;
      RunFrom(s, later[..1], more);
      OneMoreChunk(later, more);
    }
  }

  lemma NextByte(s: RecvState, later: seq<Byte>) returns (m: RecvState)
    requires s.Ok() && later != [] && Breaks(s.cur.cap, s.cur.read, s.unread + later)
    ensures Receivable(s, later[..1]) && m == After(s, later[..1])
    ensures m.Ok() ==> Breaks(m.cur.cap, m.cur.read, m.unread + later[1..])
  {
    OkHasWindow(s);
    m := After(s, later[..1]);
    if m.Ok() {
      assert (s.unread + later[..1]) + later[1..] == s.unread + later;
      CallStands(s, later[..1]);
      StandAppend(s.cur.cap, s.cur.read, s.unread + later[..1], later[1..]);
    }
  }

  lemma RunFrom(s: RecvState, b: seq<Byte>, more: seq<seq<Byte>>)
    requires Receivable(s, b) && Feasible(After(s, b), more)
    ensures Feasible(s, [b] + more) && Run(s, [b] + more) == Run(After(s, b), more)
  {
    assert ([b] + more)[1..] == more;
  }

  lemma OneMoreChunk(later: seq<Byte>, more: seq<seq<Byte>>)
    requires later != [] && Concat(more) <= later[1..]
    ensures Concat([later[..1]] + more) <= later
  {
    assert ([later[..1]] + more)[1..] == more;
    assert later == later[..1] + later[1..];
  }

  /** Exactly the streams whose sizes are safe are received intact under every chunking. */
  lemma SafeExactly(cap: nat, ms: seq<Message>)
    requires cap >= HEADER_SIZE && AllPrintable(ms)
    ensures Safe(cap, 0, ms) <==> Intact(cap, ms)
  {
    forall chunks | Safe(cap, 0, ms) && Feasible(Fresh(cap), chunks) && Concat(chunks) <= Frames(ms)
      ensures Run(Fresh(cap), chunks).Ok()
    {
      SoundExactly(cap, ms, chunks);
      SafeNeverBreaks(cap, 0, ms, |Concat(chunks)|);
    }
    if !Safe(cap, 0, ms) {
      SafeNeverBreaks(cap, 0, ms, |Frames(ms)|);
      SizesBreak(cap, 0, ms, Frames(ms));
      assert [] + Frames(ms) == Frames(ms);
      var chunks := Corrupting(Fresh(cap), Frames(ms));
    }
  }

  /** From a fresh context, a safe stream is received intact under any chunking: the buffer stays
      sound and ready for the next call, and when the whole stream has arrived exactly its payloads
      have been delivered. */
  lemma StreamReceived(cap: nat, ms: seq<Message>, chunks: seq<seq<Byte>>)
    requires cap >= HEADER_SIZE && AllPrintable(ms) && Safe(cap, 0, ms)
    requires Feasible(Fresh(cap), chunks) && Concat(chunks) <= Frames(ms)
    ensures var a := Run(Fresh(cap), chunks);
            && a.Ok() && a.cur.LinearFree() > 0
            && a.delivered <= Payloads(ms)
            && (Concat(chunks) == Frames(ms) ==> a.delivered == Payloads(ms) && a.unread == [])
  {
    SoundExactly(cap, ms, chunks);
    SafeNeverBreaks(cap, 0, ms, |Concat(chunks)|);
    OkHasWindow(Run(Fresh(cap), chunks));
    RunIsSplit(Fresh(cap), chunks);
    assert [] + Concat(chunks) == Concat(chunks);
    SplitPrefix(ms, Concat(chunks));
    SplitFrames(ms);
  }

  lemma {:induction false} FittingIsSafe(cap: nat, read: nat, ms: seq<Message>)
    requires forall m :: m in ms ==> m.Size() <= cap
    ensures Safe(cap, read, ms)
    decreases |ms|
  {
    if ms != [] {
      FittingIsSafe(cap, NextRead(cap, read, ms[0].Size()), ms[1..]);
    }
  }

  lemma {:induction false} FittingStands(cap: nat, read: nat, ms: seq<Message>, s: seq<Byte>)
    requires AllPrintable(ms) && s <= Frames(ms) && forall m :: m in ms ==> m.Size() <= cap
    ensures Stand(cap, read, s).0 == cap
    decreases |ms|
  {
    if ms != [] {
      var n := ms[0].Size();
      FrameBoundary(ms, s);
      if |s| >= HEADER_SIZE {
        FirstLenOfFrame(ms[0], s);
        if n <= |s| { FittingStands(cap, NextRead(cap, read, n), ms[1..], s[n..]); }
      }
    }
  }

  /** A first frame of any size is safe, if the later ones fit the capacity it leaves behind. */
  lemma LaterFramesFit(cap: nat, ms: seq<Message>)
    requires cap >= HEADER_SIZE && ms != []
    requires forall m :: m in ms[1..] ==> m.Size() <= GrownCap(cap, ms[0].Size())
    ensures Safe(cap, 0, ms)
  {
    var n := ms[0].Size();
    FittingIsSafe(GrownCap(cap, n), NextRead(GrownCap(cap, n), 0, n), ms[1..]);
  }

  // ----------------------------------------------------------- where the stream breaks

  /** Where the frame begins that breaks the buffer, and the capacity it finds. */
  datatype Fault = Fault(at: nat, cap: nat)

  function BreakAt(cap: nat, read: nat, s: seq<Byte>): Fault
    requires Breaks(cap, read, s)
    decreases |s|
  {
    var n := FirstLen(s).value;
    if n > cap && read + HEADER_SIZE > cap then Fault(0, cap)
    else
      var f := BreakAt(GrownCap(cap, n), NextRead(GrownCap(cap, n), read, n), s[n..]);
      f.(at := n + f.at)
  }

  lemma {:induction false} BreakAtOn(cap: nat, read: nat, s: seq<Byte>, t: seq<Byte>)
    requires Breaks(cap, read, s) && Breaks(cap, read, s + t)
    ensures BreakAt(cap, read, s + t) == BreakAt(cap, read, s)
    decreases |s|
  {
    var n := FirstLen(s).value;
    FirstOfMore(s, t);
    if !(n > cap && read + HEADER_SIZE > cap) {
      BreakAtOn(GrownCap(cap, n), NextRead(GrownCap(cap, n), read, n), s[n..], t);
    }
  }

  lemma {:induction false} BreakAtAppend(cap: nat, read: nat, s: seq<Byte>, t: seq<Byte>)
    requires !Breaks(cap, read, s) && !Stuck(Split(s).rest) && Breaks(cap, read, s + t)
    ensures var (c, r) := Stand(cap, read, s);
            && Breaks(c, r, Split(s).rest + t)
            && var f := BreakAt(c, r, Split(s).rest + t);
               BreakAt(cap, read, s + t) == f.(at := |s| - |Split(s).rest| + f.at)
    decreases |s|
  {
    StandAppend(cap, read, s, t);
    var n := FirstLen(s);
    if n.Some? {
      FirstOfMore(s, t);
      if n.value <= |s| {
        BreakAtAppend(GrownCap(cap, n.value), NextRead(GrownCap(cap, n.value), read, n.value), s[n.value..], t);
      }
    }
  }

  /** Of bytes within the capacity, only the tail can break the buffer. */
  lemma {:induction false} BreakAtTail(c: Cursors, all: seq<Byte>)
    requires c.Ok() && c.fill == |all| && Breaks(c.cap, c.read, all)
    ensures BreakAt(c.cap, c.read, all) == Fault(|all| - |Split(all).rest|, c.cap)
    decreases |all|
  {
    var n := FirstLen(all).value;
    if n <= |all| {
      ConsumedPositions(c, n);
      ConsumedRead(c, n);
      BreakAtTail(c.Consumed(n), all[n..]);
    }
  }

  lemma {:induction false} BreakWithin(cap: nat, read: nat, s: seq<Byte>)
    requires Breaks(cap, read, s)
    ensures BreakAt(cap, read, s).at + HEADER_SIZE <= |s| && BreakAt(cap, read, s).cap >= cap
    ensures FirstLen(s[BreakAt(cap, read, s).at..]).Some?
    decreases |s|
  {
    var n := FirstLen(s).value;
    if n > cap && read + HEADER_SIZE > cap {
      assert s[0..] == s;
    } else {
      var grown := GrownCap(cap, n);
      BreakWithin(grown, NextRead(grown, read, n), s[n..]);
      var k := BreakAt(grown, NextRead(grown, read, n), s[n..]).at;
      assert s[n..][k..] == s[n + k..];
    }
  }

  /** A single byte that breaks the buffer completes the header of the frame in question. */
  lemma {:induction false} BreakJust(cap: nat, read: nat, s: seq<Byte>, b: seq<Byte>)
    requires |b| == 1 && !Breaks(cap, read, s) && Breaks(cap, read, s + b)
    ensures |s + b| - BreakAt(cap, read, s + b).at <= HEADER_SIZE
    decreases |s|
  {
    if |s| >= HEADER_SIZE {
      FirstLenOfPrefix(s, b);
      var n := FirstLen(s).value;
      if n <= |s| {
        FirstOfMore(s, b);
        BreakJust(GrownCap(cap, n), NextRead(GrownCap(cap, n), read, n), s[n..], b);
      }
    }
  }

  /** Which message breaks the buffer. */
  ghost function Breaker(cap: nat, read: nat, ms: seq<Message>): (f: Fault)
    requires !Safe(cap, read, ms)
    ensures f.at < |ms|
    decreases |ms|
  {
    var n := ms[0].Size();
    if n > cap && read + HEADER_SIZE > cap then Fault(0, cap)
    else
      var f := Breaker(GrownCap(cap, n), NextRead(GrownCap(cap, n), read, n), ms[1..]);
      Fault(f.at + 1, f.cap)
  }

  lemma {:induction false} BreakerFrame(cap: nat, read: nat, ms: seq<Message>)
    requires !Safe(cap, read, ms)
    ensures Breaker(cap, read, ms).cap < ms[Breaker(cap, read, ms).at].Size()
    decreases |ms|
  {
    var n := ms[0].Size();
    if !(n > cap && read + HEADER_SIZE > cap) {
      var grown := GrownCap(cap, n);
      var f := Breaker(grown, NextRead(grown, read, n), ms[1..]);
      BreakerFrame(grown, NextRead(grown, read, n), ms[1..]);
      assert ms[1..][f.at] == ms[f.at + 1];
    }
  }

  /** Where the frame of the `j`-th message begins. */
  ghost function OffsetOf(ms: seq<Message>, j: nat): nat
    requires j <= |ms|
  {
    |Frames(ms[..j])|
  }

  lemma OffsetStep(ms: seq<Message>, j: nat)
    requires j < |ms|
    ensures OffsetOf(ms, 0) == 0 && OffsetOf(ms, j + 1) == ms[0].Size() + OffsetOf(ms[1..], j)
  {
    assert ms[..j + 1][1..] == ms[1..][..j];
  }

  /** Bytes of a framed stream that break the buffer do so at the frame of that message. */
  lemma {:induction false} BreakerBreaks(cap: nat, read: nat, ms: seq<Message>, s: seq<Byte>)
    requires AllPrintable(ms) && s <= Frames(ms) && Breaks(cap, read, s) && !Safe(cap, read, ms)
    ensures BreakAt(cap, read, s).cap == Breaker(cap, read, ms).cap
    ensures BreakAt(cap, read, s).at == OffsetOf(ms, Breaker(cap, read, ms).at)
    decreases |ms|
  {
    var n := ms[0].Size();
    FrameBoundary(ms, s);
    FirstLenOfFrame(ms[0], s);
    if n > cap && read + HEADER_SIZE > cap {
      OffsetStep(ms, 0);
    } else {
      var grown := GrownCap(cap, n);
      var next := NextRead(grown, read, n);
      var f := Breaker(grown, next, ms[1..]);
      assert Breaker(cap, read, ms) == Fault(f.at + 1, f.cap);
      BreakerBreaks(grown, next, ms[1..], s[n..]);
      OffsetStep(ms, f.at);
    }
  }

  // ------------------------------------------------------- a run that corrupts the buffer

  /** A reachable corruption. A frame leaves fewer than ten bytes at the end of the buffer, perhaps
      none, so the next header wraps or starts over while the read cursor rests at the end; it
      announces a frame beyond the capacity, and growing keeps both cursors. */
  lemma WrappedGrowthIsReachable(cap: nat, m1: Message, m2: Message)
    requires AllPrintable([m1, m2])
    requires cap - HEADER_SIZE < m1.Size() <= cap < m2.Size()
    ensures var j := cap - m1.Size();
            var chunks := [m1.Frame() + m2.Frame()[..j], m2.Frame()[j..HEADER_SIZE]];
            && Feasible(Fresh(cap), chunks)
            && Concat(chunks) <= Frames([m1, m2])
            && !Run(Fresh(cap), chunks).cur.Ok()
  {
    var f1, f2 := m1.Frame(), m2.Frame();
    var t, u := f2[..cap - |f1|], f2[cap - |f1|..HEADER_SIZE];
    assert t + u == f2[..HEADER_SIZE];
    FirstLenOfFrame(m2, t + u);
    FirstCallReachesEnd(cap, m1, t);
    SecondCallCorrupts(After(Fresh(cap), f1 + t), u);
    RunOfTwo(Fresh(cap), f1 + t, u);
    StreamOfTwo(m1, m2, t, u);
  }

  lemma StreamOfTwo(m1: Message, m2: Message, t: seq<Byte>, u: seq<Byte>)
    requires t + u <= m2.Frame()
    ensures Concat([m1.Frame() + t, u]) <= Frames([m1, m2])
  {
    PairConcat(m1.Frame() + t, u);
    PairFrames(m1, m2);
    LongerPrefix(m1.Frame(), t, u, m2.Frame());
  }

  lemma LongerPrefix(a: seq<Byte>, t: seq<Byte>, u: seq<Byte>, b: seq<Byte>)
    requires t + u <= b
    ensures (a + t) + u <= a + b
  {
    assert a + b == ((a + t) + u) + b[|t + u|..];
  }

  lemma PairFrames(m1: Message, m2: Message)
    ensures Frames([m1, m2]) == m1.Frame() + m2.Frame()
  {
    assert [m1, m2][1..] == [m2];
    assert Frames([m2]) == m2.Frame() + Frames([]);
  }

  lemma PairConcat(a: seq<Byte>, b: seq<Byte>)
    ensures Concat([a, b]) == a + b
  {
    assert [a, b][1..] == [b];
    assert Concat([b]) == b + Concat([]);
  }

  /** A first chunk that fills the buffer with one frame and perhaps the start of the next. */
  lemma FirstCallReachesEnd(cap: nat, m: Message, t: seq<Byte>)
    requires m.Printable() && |t| < HEADER_SIZE && m.Size() + |t| == cap
    ensures Receivable(Fresh(cap), m.Frame() + t)
    ensures After(Fresh(cap), m.Frame() + t)
         == RecvState(Cursors(cap, m.Size(), cap, |t|), t, None, [m.payload])
  {
    var s, b, k := Fresh(cap), m.Frame() + t, m.Size();
    FirstFrameSplitsOff(m, t);
    assert s.unread + b == b;
    var full := Cursors(cap, 0, cap, cap);
    assert full.Consumed(k) == Cursors(cap, k, cap, |t|);
    assert [m.payload][1..] == [];
    assert ConsumedAll(full, [m.payload]) == ConsumedAll(full.Consumed(k), []);
  }

  /** From there, the rest of the header goes to the start of the buffer. */
  lemma SecondCallCorrupts(s: RecvState, u: seq<Byte>)
    requires s.Ok() && u != [] && s.cur.write == s.cur.cap
    requires |u| <= s.cur.read && |s.unread + u| == HEADER_SIZE
    requires FirstLen(s.unread + u).Some? && FirstLen(s.unread + u).value > s.cur.cap
    ensures Receivable(s, u) && !After(s, u).cur.Ok()
  {
    assert Split(s.unread + u) == Parsed([], s.unread + u);
    assert !Drained(s, u).Contiguous();
    AfterOk(s, u);
  }

  lemma RunOfTwo(s: RecvState, b1: seq<Byte>, b2: seq<Byte>)
    requires Receivable(s, b1) && Receivable(After(s, b1), b2)
    ensures Feasible(s, [b1, b2]) && Run(s, [b1, b2]) == After(After(s, b1), b2)
  {
    RunFrom(After(s, b1), b2, []);
    RunFrom(s, b1, [b2]);
    assert [b2] + [] == [b2] && [b1] + [b2] == [b1, b2];
  }

  /** A printable frame followed by a few bytes splits into its payload and those bytes. */
  lemma FirstFrameSplitsOff(m: Message, t: seq<Byte>)
    requires m.Printable() && |t| < HEADER_SIZE
    ensures Split(m.Frame() + t) == Parsed([m.payload], t)
  {
    var s := m.Frame() + t;
    FirstLenOfFrame(m, s);
    assert s[m.Size()..] == t;
    assert s[HEADER_SIZE..m.Size()] == m.payload;
    assert Split(t) == Parsed([], t);
  }
}
