/** The receive path on the buffer's memory, for every state the cursors can be in. */
module RawReceive {
  import opened Header
  import opened Framing
  import opened Cursors
  import opened CumBuffers
  import opened Receive

  /** The receive half of a context as it is stored: the buffer's memory and cursors, the cached frame
      length and the payloads delivered. */
  datatype Raw = Raw(mem: seq<Byte>, cur: Cursors, cached: Option<nat>, delivered: seq<seq<Byte>>)
  {
    predicate Ok() {
      |mem| == cur.cap && cur.InBounds() && (cached.Some? ==> cached.value >= HEADER_SIZE)
    }

    ghost predicate InLine() { Ok() && cur.Ok() }

    /** The receive state that sound cursors stand for. */
    ghost function View(): RecvState
      requires InLine()
    {
      RecvState(cur, Unread(mem, cur), cached, delivered)
    }

    ghost predicate Sound() { InLine() && View().Ok() }

    /** Nothing received, as in a new context or after `ReSet`, whatever the memory holds. */
    predicate Unused() {
      |mem| == cur.cap && cur == Cursors(cur.cap, 0, 0, 0) && cached == None && delivered == []
    }

    /** `ReSet`, with no cached length. */
    function Reset(): Raw { Raw(mem, cur.Emptied(), None, []) }
  }

  function Zeros(n: nat): seq<Byte> { seq(n, _ => 0) }

  function RawFresh(cap: nat): Raw { Raw(Zeros(cap), Cursors(cap, 0, 0, 0), None, []) }

  /** How a call ends: ready for another, returning false so that the connection is given up, or at a
      failed assertion or a header whose reading is undefined. */
  datatype Fate = Runs | Refused | Lost

  /** `broke`: the call has grown the buffer while its cursors were out of line. */
  datatype Called = Called(raw: Raw, fate: Fate, broke: bool)

  /** `OnCalculateDataLen` with a header's worth of bytes counted. */
  function Measured(s: Raw): (r: Called)
    requires s.Ok()
    ensures r.raw.Ok() && r.raw.delivered == s.delivered && r.raw.cur.fill == s.cur.fill
    ensures r.raw.cur.cap >= s.cur.cap && (r.fate.Runs? ==> r.raw.cached.Some?)
  {
    if !s.cur.Yields(HEADER_SIZE) then Called(s, Lost, false)
    else
      var n := FrameLen(Oldest(s.mem, s.cur, HEADER_SIZE));
      if n.None? then Called(s, Lost, false)
      else if n.value > s.cur.cap then
        Called(Raw(s.mem + Zeros(n.value * 2 - s.cur.cap), s.cur.Grown(n.value * 2), n, s.delivered),
               Runs, !s.cur.Contiguous())
      else Called(s.(cached := n), Runs, false)
  }

  /** The delivery loop. */
  function Delivering(s: Raw): (r: Called)
    requires s.Ok()
    ensures r.raw.Ok() && s.delivered <= r.raw.delivered && r.raw.cur.cap >= s.cur.cap
    decreases s.cur.fill, if s.cached.None? then 1 else 0
  {
    if s.cur.fill == 0 then Called(s, Runs, false)
    else if s.cached.None? then
      if s.cur.fill < HEADER_SIZE then Called(s, Runs, false)
      else
        var m := Measured(s);
        if !m.fate.Runs? then m
        else
          var r := Delivering(m.raw);
          r.(broke := m.broke || r.broke)
    else if s.cached.value > s.cur.fill then Called(s, Runs, false)
    else if !s.cur.Yields(s.cached.value) then Called(s.(cached := None), Refused, false)
    else
      Delivering(Raw(s.mem, s.cur.Consumed(s.cached.value), None,
                     s.delivered + [Oldest(s.mem, s.cur, s.cached.value)[HEADER_SIZE..]]))
  }

  /** The kernel's bytes in the window and counted; `None` at one of the two assertions on the way. */
  function Admitted(s: Raw, bytes: seq<Byte>): (r: Option<Raw>)
    requires s.Ok() && |bytes| <= s.cur.LinearFree()
    ensures r.Some? ==> r.value.Ok() && r.value.cur.cap == s.cur.cap
  {
    WindowInBounds(s.cur);
    var c := s.cur.Rewound();
    if s.cur.LinearFree() == 0 || s.cur.fill + |bytes| > s.cur.cap then None
    else Some(s.(mem := Overwritten(s.mem, c.write, bytes), cur := c.Increased(|bytes|)))
  }

  /** One `RecvData` call whose `recv` returns `bytes`; none stand for an error return. */
  function Calling(s: Raw, bytes: seq<Byte>): (r: Called)
    requires s.Ok() && |bytes| <= s.cur.LinearFree()
    ensures r.raw.Ok() && s.delivered <= r.raw.delivered && r.raw.cur.cap >= s.cur.cap
  {
    match Admitted(s, bytes)
    case None => Called(s, Lost, false)
    case Some(t) => if bytes == [] then Called(t, Runs, false) else Delivering(t)
  }

  // ------------------------------------------------- sound states: the queue of bytes

  /** The cursors `c` over the first `c.cap` bytes of the memory hold `rest`. */
  ghost predicate Holds(mem: seq<Byte>, c: Cursors, rest: seq<Byte>) {
    c.Ok() && |mem| >= c.cap && Unread(mem[..c.cap], c) == rest
  }

  /** The call has ended as the receive state `a` says, from a buffer of capacity `cap`. */
  ghost predicate EndsIn(r: Called, cap: nat, a: RecvState) {
    if Stuck(a.unread) then r.fate.Lost? && !r.broke
    else
      && r.fate.Runs? && r.raw.cur == a.cur && r.raw.cached == a.cached && r.raw.delivered == a.delivered
      && (r.broke <==> !a.cur.Ok())
      && Holds(r.raw.mem, a.cur.(cap := cap), a.unread)
      && (a.cur.Ok() ==> r.raw.InLine() && r.raw.View() == a)
  }

  lemma NothingGrown(s: Raw)
    requires s.InLine()
    ensures Holds(s.mem, s.cur, Unread(s.mem, s.cur)) && s.cur.(cap := s.cur.cap) == s.cur
  {
    assert s.mem[..s.cur.cap] == s.mem;
  }

  lemma HeaderRead(s: Raw)
    requires s.InLine() && s.cur.fill >= HEADER_SIZE
    ensures s.cur.Yields(HEADER_SIZE)
    ensures FrameLen(Oldest(s.mem, s.cur, HEADER_SIZE)) == FirstLen(Unread(s.mem, s.cur))
  {
    OldestUnread(s.mem, s.cur, HEADER_SIZE);
  }

  /** A frame beyond the capacity has the buffer grown, and ends the call. */
  lemma GrowingEnds(s: Raw, n: nat)
    requires s.InLine() && FirstLen(Unread(s.mem, s.cur)) == Some(n) && n > s.cur.cap
    ensures var m := Called(Raw(s.mem + Zeros(n * 2 - s.cur.cap), s.cur.Grown(n * 2), Some(n), s.delivered),
                            Runs, !s.cur.Contiguous());
            EndsIn(m, s.cur.cap, Settled(s.cur, Unread(s.mem, s.cur), s.delivered))
  {
    var big := s.mem + Zeros(n * 2 - s.cur.cap);
    SettledNone(s.cur, Unread(s.mem, s.cur), s.delivered);
    GrowthBoundary(s.cur, n * 2);
    assert big[..s.cur.cap] == s.mem;
    if s.cur.Contiguous() {
      UnreadAppended(s.mem, s.cur, big, s.cur.Grown(n * 2), []);
    }
  }

  /** A whole frame leaves the buffer. */
  lemma DeliversFirst(s: Raw, n: nat)
    requires s.InLine() && FirstLen(Unread(s.mem, s.cur)) == Some(n) && n <= s.cur.fill
    ensures s.cur.Yields(n)
    ensures var all := Unread(s.mem, s.cur);
            var t := Raw(s.mem, s.cur.Consumed(n), None,
                         s.delivered + [Oldest(s.mem, s.cur, n)[HEADER_SIZE..]]);
            && t.InLine() && Unread(t.mem, t.cur) == all[n..]
            && Settled(t.cur, all[n..], t.delivered) == Settled(s.cur, all, s.delivered)
  {
    OldestUnread(s.mem, s.cur, n);
    UnreadConsumed(s.mem, s.cur, n);
    SettledStep(s.cur, Unread(s.mem, s.cur), s.delivered, n);
  }

  lemma WaitingEnds(s: Raw)
    requires s.InLine() && s.cached == FirstLen(Unread(s.mem, s.cur)) && !Stuck(Unread(s.mem, s.cur))
    requires s.cached.Some? ==> s.cur.fill < s.cached.value <= s.cur.cap
    ensures EndsIn(Called(s, Runs, false), s.cur.cap, Settled(s.cur, Unread(s.mem, s.cur), s.delivered))
  {
    SettledNone(s.cur, Unread(s.mem, s.cur), s.delivered);
    NothingGrown(s);
  }

  /** A cached length is the one the buffered header announces, and fits the buffer. */
  ghost predicate CachedFits(s: Raw)
    requires s.InLine()
  {
    s.cached.Some? ==> s.cached == FirstLen(Unread(s.mem, s.cur)) && s.cached.value <= s.cur.cap
  }

  /** The round that measures a frame. */
  lemma MeasuringSettles(s: Raw)
    requires s.InLine() && s.cached.None? && s.cur.fill >= HEADER_SIZE
    ensures var a := Settled(s.cur, Unread(s.mem, s.cur), s.delivered);
            var m := Measured(s);
            if m.fate.Runs? && m.raw.cur.cap == s.cur.cap
            then m.raw == s.(cached := FirstLen(Unread(s.mem, s.cur))) && CachedFits(m.raw) && !m.broke
            else EndsIn(Delivering(s), s.cur.cap, a)
  {
    var all := Unread(s.mem, s.cur);
    HeaderRead(s);
    var n := FirstLen(all);
    if n.None? {
      SettledNone(s.cur, all, s.delivered);
    } else if n.value > s.cur.cap {
      GrowingEnds(s, n.value);
    }
  }

  /** In line, the delivery loop does to the memory what the splitter does to the queue. */
  lemma {:induction false} DeliveringSettles(s: Raw)
    requires s.InLine() && CachedFits(s)
    ensures EndsIn(Delivering(s), s.cur.cap, Settled(s.cur, Unread(s.mem, s.cur), s.delivered))
    decreases s.cur.fill, if s.cached.None? then 1 else 0
  {
    var all := Unread(s.mem, s.cur);
    if s.cached.None? {
      if s.cur.fill < HEADER_SIZE {
        WaitingEnds(s);
      } else {
        MeasuringSettles(s);
        var m := Measured(s);
        if m.fate.Runs? && m.raw.cur.cap == s.cur.cap { DeliveringSettles(m.raw); }
      }
    } else if s.cached.value > s.cur.fill {
      WaitingEnds(s);
    } else {
      DeliversFirst(s, s.cached.value);
      DeliveringSettles(Raw(s.mem, s.cur.Consumed(s.cached.value), None,
                            s.delivered + [Oldest(s.mem, s.cur, s.cached.value)[HEADER_SIZE..]]));
    }
  }

  /** The kernel's bytes join the queue. */
  lemma BytesJoin(s: Raw, bytes: seq<Byte>)
    requires s.Sound() && |bytes| <= s.cur.LinearFree()
    ensures var t := Admitted(s, bytes);
            && t.Some? && t.value.InLine() && t.value.cur.cap == s.cur.cap
            && t.value == s.(mem := t.value.mem, cur := s.cur.Rewound().Increased(|bytes|))
            && Unread(t.value.mem, t.value.cur) == Unread(s.mem, s.cur) + bytes
  {
    WindowIsFree(s.cur);
    FilledWindow(s.cur, |bytes|);
    var c := s.cur.Rewound();
    UnreadAppended(s.mem, s.cur, Overwritten(s.mem, c.write, bytes), c.Increased(|bytes|), bytes);
  }

  lemma ErrorEnds(s: Raw, t: Raw)
    requires s.Sound() && Admitted(s, []) == Some(t)
    ensures EndsIn(Called(t, Runs, false), s.cur.cap, After(s.View(), []))
  {
    BytesJoin(s, []);
    AfterNothing(s.View());
    assert Unread(s.mem, s.cur) + [] == Unread(s.mem, s.cur);
    NothingGrown(t);
  }

  /** From a sound state, a call on the memory ends in the receive state that `After` gives. */
  lemma CallRefines(s: Raw, bytes: seq<Byte>)
    requires s.Sound() && |bytes| <= s.cur.LinearFree()
    ensures EndsIn(Calling(s, bytes), s.cur.cap, After(s.View(), bytes))
  {
    BytesJoin(s, bytes);
    var t := Admitted(s, bytes).value;
    if bytes == [] {
      ErrorEnds(s, t);
    } else {
      var all := Unread(s.mem, s.cur);
      if |all| >= HEADER_SIZE { FirstLenOfPrefix(all, bytes); }
      DeliveringSettles(t);
    }
  }

  lemma UnusedIsSound(s: Raw)
    requires s.Unused() && s.cur.cap >= HEADER_SIZE
    ensures s.Sound() && s.View() == Fresh(s.cur.cap)
  {
  }

  // ------------------------------------------ after the break: what is delivered instead

  /** A broken receiver waits for the rest of the frame that broke it. `t` is what has come of the
      stream from the start of that frame, `small` the capacity before the growth. */
  ghost predicate Astray(s: Raw, small: nat, t: seq<Byte>) {
    && s.Ok() && s.cached.Some? && small < s.cached.value && s.cur.cap == 2 * s.cached.value
    && HEADER_SIZE <= |t| == s.cur.fill < s.cached.value
    && s.cur.read <= small < s.cur.read + HEADER_SIZE && s.cur.read + |t| == s.cur.write + small
    && forall p :: 0 <= p < s.cur.write ==> s.mem[p] == t[small - s.cur.read + p]
  }

  /** Cursors out of line, seen from the bytes they hold. */
  lemma WrappedMemory(mem: seq<Byte>, d: Cursors, t: seq<Byte>)
    requires d.Ok() && |mem| == d.cap && Unread(mem, d) == t
    requires |t| >= HEADER_SIZE && d.cap < d.read + HEADER_SIZE && !d.Contiguous()
    ensures d.read + |t| == d.write + d.cap
    ensures forall p :: 0 <= p < d.write ==> mem[p] == t[d.cap - d.read + p]
  {
    forall p | 0 <= p < d.write ensures mem[p] == t[d.cap - d.read + p] {
      assert Unread(mem, d)[d.cap - d.read + p] == mem[d.Position(d.cap - d.read + p)];
    }
  }

  /** The growing call leaves the receiver so. */
  lemma BreakStrays(s: Raw, bytes: seq<Byte>)
    requires s.Sound() && |bytes| <= s.cur.LinearFree() && Calling(s, bytes).broke
    ensures var r, a := Calling(s, bytes), After(s.View(), bytes);
            && r.fate.Runs? && Astray(r.raw, s.cur.cap, a.unread)
            && r.raw.cached == FirstLen(a.unread) && r.raw.delivered == a.delivered
  {
    CallRefines(s, bytes);
    StraysFrom(s.View(), bytes, Calling(s, bytes).raw);
  }

  lemma StraysFrom(v: RecvState, bytes: seq<Byte>, m: Raw)
    requires Receivable(v, bytes) && m.Ok() && !Stuck(After(v, bytes).unread)
    requires var a := After(v, bytes);
             && m.cur == a.cur && m.cached == a.cached && !a.cur.Ok()
             && Holds(m.mem, a.cur.(cap := v.cur.cap), a.unread)
    ensures Astray(m, v.cur.cap, After(v, bytes).unread) && m.cached == FirstLen(After(v, bytes).unread)
  {
    var d := Drained(v, bytes);
    AfterOk(v, bytes);
    GrowsWrappedExactly(v, bytes);
    assert m.cur.(cap := v.cur.cap) == d;
    WrappedMemory(m.mem[..d.cap], d, After(v, bytes).unread);
  }

  /** The bytes that go to the callback in place of the frame's payload: those `small` places further
      on in the stream, or none. */
  function Shifted(t: seq<Byte>, small: nat, n: nat): seq<Byte>
    requires small + n <= |t| && n >= HEADER_SIZE
  {
    t[small + HEADER_SIZE..small + n]
  }

  /** The kernel's bytes go on where the last ones ended. */
  lemma AstrayWindow(s: Raw, small: nat, t: seq<Byte>, bytes: seq<Byte>)
    requires Astray(s, small, t) && |bytes| <= s.cur.LinearFree()
    ensures s.cur.LinearFree() > 0 && s.cur.Rewound() == s.cur && s.cur.write + |bytes| <= s.cur.cap
    ensures var mem := Overwritten(s.mem, s.cur.write, bytes);
            forall p :: 0 <= p < s.cur.write + |bytes| ==> mem[p] == (t + bytes)[small - s.cur.read + p]
  {
  }

  /** One more call on a broken receiver, `all` being what has come since the frame began. It waits
      until the frame is complete; then it stops at the assertion, or refuses the frame because the
      write cursor is too close behind, or delivers other bytes. */
  ghost predicate GoesAstray(s: Raw, small: nat, all: seq<Byte>, r: Called)
    requires s.cached.Some? && s.cached.value >= HEADER_SIZE
  {
    var n := s.cached.value;
    if |all| < n then
      r.fate.Runs? && Astray(r.raw, small, all) && r.raw.cached == s.cached && r.raw.delivered == s.delivered
    else if |all| > 2 * n then r.fate.Lost? && r.raw.delivered == s.delivered
    else if |all| < small + n then r.fate.Refused? && r.raw.delivered == s.delivered
    else s.delivered + [Shifted(all, small, n)] <= r.raw.delivered
  }

  lemma SubSlice<T>(s: seq<T>, k: nat, w: nat, i: nat, j: nat)
    requires i <= j <= w && k + w <= |s|
    ensures s[k..k + w][i..j] == s[k + i..k + j]
  {
    var a, b := s[k..k + w][i..j], s[k + i..k + j];
    forall x | 0 <= x < |a| ensures a[x] == b[x] {
      assert s[k..k + w][i + x] == s[k + i + x];
    }
  }

  lemma ShiftedMemory(mem: seq<Byte>, c: Cursors, small: nat, all: seq<Byte>, n: nat)
    requires |mem| == c.cap && c.InBounds() && c.Yields(n) && n >= HEADER_SIZE
    requires c.read <= small < c.read + HEADER_SIZE && c.read + n <= c.write && small + n <= |all|
    requires small - c.read + c.write <= |all|
    requires forall p :: 0 <= p < c.write ==> mem[p] == all[small - c.read + p]
    ensures Oldest(mem, c, n)[HEADER_SIZE..] == Shifted(all, small, n)
  {
    var d := small - c.read;
    assert mem[0..0 + c.write] == all[d..d + c.write];
    SubSlice(mem, 0, c.write, c.read + HEADER_SIZE, c.read + n);
    SubSlice(all, d, c.write, c.read + HEADER_SIZE, c.read + n);
    SubSlice(mem, c.read, n, HEADER_SIZE, n);
  }

  lemma AstrayCall(s: Raw, small: nat, t: seq<Byte>, bytes: seq<Byte>)
    requires Astray(s, small, t) && |bytes| <= s.cur.LinearFree()
    ensures GoesAstray(s, small, t + bytes, Calling(s, bytes))
  {
    AstrayWindow(s, small, t, bytes);
    if s.cur.fill + |bytes| <= s.cur.cap {
      AstrayLoop(Admitted(s, bytes).value, small, t + bytes);
    }
  }

  /** The delivery loop once the bytes are in. */
  lemma AstrayLoop(m: Raw, small: nat, all: seq<Byte>)
    requires m.Ok() && m.cached.Some? && small < m.cached.value && m.cur.cap == 2 * m.cached.value
    requires HEADER_SIZE <= |all| == m.cur.fill
    requires m.cur.read <= small < m.cur.read + HEADER_SIZE && m.cur.read + |all| == m.cur.write + small
    requires forall p :: 0 <= p < m.cur.write ==> m.mem[p] == all[small - m.cur.read + p]
    ensures GoesAstray(m, small, all, Delivering(m))
  {
    var n := m.cached.value;
    if |all| >= small + n {
      ShiftedMemory(m.mem, m.cur, small, all, n);
    }
  }

  // ------------------------------------------------------------------- runs of calls

  /** A receiver between calls: how its last call ended, and whether any has broken the buffer. */
  datatype Receiver = Receiver(raw: Raw, fate: Fate, broken: bool) {
    predicate Takes(n: nat) { fate.Runs? && n <= raw.cur.LinearFree() }

    function Taking(bytes: seq<Byte>): Receiver
      requires raw.Ok() && Takes(|bytes|)
    {
      var c := Calling(raw, bytes);
      Receiver(c.raw, c.fate, broken || c.broke)
    }
  }

  function NewReceiver(cap: nat): Receiver { Receiver(RawFresh(cap), Runs, false) }

  /** The bytes `got` have been received from a fresh context of capacity `cap`, and not broken the
      buffer: it is sound, and all is as the splitter says. */
  ghost predicate InStep(r: Receiver, cap: nat, got: seq<Byte>) {
    && !r.broken && r.fate.Runs? && r.raw.Sound()
    && r.raw.delivered == Split(got).payloads && r.raw.View().unread == Split(got).rest
    && (r.raw.cur.cap, r.raw.cur.read) == Stand(cap, 0, got)
  }

  /** The receiver has delivered `before`, and then waits for the frame at the head of `t`, has given
      up, or has delivered other bytes in its place. */
  ghost predicate Strays(r: Receiver, before: seq<seq<Byte>>, small: nat, t: seq<Byte>) {
    && r.broken && FirstLen(t).Some?
    && var n := FirstLen(t).value;
       || (r.raw.delivered == before && (r.fate.Runs? <==> |t| < n)
           && (r.fate.Runs? ==> Astray(r.raw, small, t) && r.raw.cached == Some(n)))
       || (small + n <= |t| && before + [Shifted(t, small, n)] <= r.raw.delivered)
  }

  /** The frame that breaks the buffer begins at `f.at`. */
  ghost predicate StraysAt(r: Receiver, f: Fault, got: seq<Byte>) {
    f.at <= |got| && Strays(r, Split(got[..f.at]).payloads, f.cap, got[f.at..])
  }

  /** Where a receiver stands that has been given `got`. If they break the buffer, what came before
      was delivered, and in place of the frame in question come other bytes of the stream or nothing. */
  ghost predicate Reached(r: Receiver, cap: nat, got: seq<Byte>) {
    r.raw.Ok() && if Breaks(cap, 0, got) then StraysAt(r, BreakAt(cap, 0, got), got) else InStep(r, cap, got)
  }

  lemma UnusedReached(s: Raw)
    requires s.Unused() && s.cur.cap >= HEADER_SIZE
    ensures Reached(Receiver(s, Runs, false), s.cur.cap, [])
  {
    UnusedIsSound(s);
  }

  /** The tail is the end of the bytes, and what comes before it splits completely. */
  lemma {:induction false} SplitFront(s: seq<Byte>)
    ensures var k := |s| - |Split(s).rest|;
            s[k..] == Split(s).rest && Split(s[..k]) == Parsed(Split(s).payloads, [])
    decreases |s|
  {
    var n := FirstLen(s);
    if n.Some? && n.value <= |s| {
      var k := |s| - |Split(s).rest|;
      SplitFront(s[n.value..]);
      SplitLengths(s[n.value..]);
      FrontStep(s, n.value, k);
    } else {
      assert s[..0] == [];
    }
  }

  lemma FrontStep(s: seq<Byte>, n: nat, k: nat)
    requires HEADER_SIZE <= n <= k <= |s|
    ensures s[k..] == s[n..][k - n..] && s[..k][n..] == s[n..][..k - n]
    ensures s[..k][..HEADER_SIZE] == s[..HEADER_SIZE] && s[..k][HEADER_SIZE..n] == s[HEADER_SIZE..n]
  {
  }

  lemma InStepSplits(r: Receiver, cap: nat, got: seq<Byte>, bytes: seq<Byte>)
    requires InStep(r, cap, got) && r.Takes(|bytes|)
    ensures var a, p := After(r.raw.View(), bytes), Split(got + bytes);
            a.delivered == p.payloads && a.unread == p.rest
  {
    SplitAppend(got, bytes);
  }

  /** A call that ends in a sound receive state. */
  lemma EndsInStep(c: Called, v: nat, a: RecvState, cap: nat, all: seq<Byte>)
    requires EndsIn(c, v, a) && a.Ok() && c.raw.Ok()
    requires a.delivered == Split(all).payloads && a.unread == Split(all).rest
    requires (a.cur.cap, a.cur.read) == Stand(cap, 0, all)
    ensures InStep(Receiver(c.raw, c.fate, c.broke), cap, all)
  {
  }

  /** Where the bytes break the buffer that the last call has brought. */
  lemma BreakPlace(v: RecvState, bytes: seq<Byte>, cap: nat, got: seq<Byte>) returns (f: Fault)
    requires Receivable(v, bytes) && v.unread == Split(got).rest && (v.cur.cap, v.cur.read) == Stand(cap, 0, got)
    requires !Breaks(cap, 0, got) && Breaks(cap, 0, got + bytes) && !Stuck(v.unread)
    ensures f == BreakAt(cap, 0, got + bytes) == Fault(|got + bytes| - |Split(got + bytes).rest|, v.cur.cap)
  {
    f := BreakAt(cap, 0, got + bytes);
    BreakAtAppend(cap, 0, got, bytes);
    FilledWindow(v.cur, |bytes|);
    BreakAtTail(v.cur.Rewound().Increased(|bytes|), v.unread + bytes);
    SplitAppend(got, bytes);
  }

  /** A receiver that waits for the frame at the end of what has come. */
  lemma StraysAtEnd(next: Receiver, all: seq<Byte>, small: nat, f: Fault)
    requires next.broken && next.fate.Runs? && next.raw.delivered == Split(all).payloads
    requires Astray(next.raw, small, Split(all).rest) && next.raw.cached == FirstLen(Split(all).rest)
    requires f == Fault(|all| - |Split(all).rest|, small)
    ensures StraysAt(next, f, all)
  {
    SplitFront(all);
  }

  /** The call that breaks the buffer. */
  lemma BreakFound(r: Receiver, cap: nat, got: seq<Byte>, bytes: seq<Byte>, next: Receiver)
    requires InStep(r, cap, got) && r.Takes(|bytes|) && Calling(r.raw, bytes).broke
    requires next == r.Taking(bytes)
    ensures next.broken && next.fate.Runs? && next.raw.delivered == Split(got + bytes).payloads
    ensures Astray(next.raw, r.raw.cur.cap, Split(got + bytes).rest)
    ensures next.raw.cached == FirstLen(Split(got + bytes).rest)
  {
    BreakStrays(r.raw, bytes);
    InStepSplits(r, cap, got, bytes);
  }

  lemma StepStays(r: Receiver, cap: nat, got: seq<Byte>, bytes: seq<Byte>, next: Receiver)
    requires InStep(r, cap, got) && !Breaks(cap, 0, got) && r.Takes(|bytes|) && next == r.Taking(bytes)
    requires !Stuck(Split(got + bytes).rest) && !Breaks(cap, 0, got + bytes)
    ensures InStep(next, cap, got + bytes)
  {
    var v := r.raw.View();
    CallRefines(r.raw, bytes);
    InStepSplits(r, cap, got, bytes);
    CallStands(v, bytes);
    StandAppend(cap, 0, got, bytes);
    EndsInStep(Calling(r.raw, bytes), v.cur.cap, After(v, bytes), cap, got + bytes);
  }

  lemma StepBreaks(r: Receiver, cap: nat, got: seq<Byte>, bytes: seq<Byte>, next: Receiver) returns (f: Fault)
    requires InStep(r, cap, got) && !Breaks(cap, 0, got) && r.Takes(|bytes|) && next == r.Taking(bytes)
    requires !Stuck(Split(got + bytes).rest) && Breaks(cap, 0, got + bytes)
    ensures f == BreakAt(cap, 0, got + bytes) && StraysAt(next, f, got + bytes)
  {
    BreaksInCall(r, cap, got, bytes);
    f := BreakPlace(r.raw.View(), bytes, cap, got);
    BreakFound(r, cap, got, bytes, next);
    StraysAtEnd(next, got + bytes, r.raw.cur.cap, f);
  }

  lemma BreaksInCall(r: Receiver, cap: nat, got: seq<Byte>, bytes: seq<Byte>)
    requires InStep(r, cap, got) && !Breaks(cap, 0, got) && r.Takes(|bytes|)
    requires !Stuck(Split(got + bytes).rest) && Breaks(cap, 0, got + bytes)
    ensures Calling(r.raw, bytes).broke
  {
    var v := r.raw.View();
    CallRefines(r.raw, bytes);
    InStepSplits(r, cap, got, bytes);
    StandAppend(cap, 0, got, bytes);
    CallStands(v, bytes);
    AfterOk(v, bytes);
  }

  /** And whoever has gone astray stays so. */
  lemma StraysOn(r: Receiver, before: seq<seq<Byte>>, small: nat, t: seq<Byte>, bytes: seq<Byte>, next: Receiver)
    requires r.raw.Ok() && Strays(r, before, small, t) && r.Takes(|bytes|) && next == r.Taking(bytes)
    ensures Strays(next, before, small, t + bytes)
  {
    FirstOfMore(t, bytes);
    var n := FirstLen(t).value;
    if r.raw.delivered == before {
      AstrayCall(r.raw, small, t, bytes);
    } else {
      assert Shifted(t + bytes, small, n) == Shifted(t, small, n);
    }
  }

  lemma SplitAt(got: seq<Byte>, bytes: seq<Byte>, k: nat)
    requires k <= |got|
    ensures (got + bytes)[k..] == got[k..] + bytes && (got + bytes)[..k] == got[..k]
  {
  }

  lemma StraysAtOn(r: Receiver, f: Fault, got: seq<Byte>, bytes: seq<Byte>, next: Receiver)
    requires r.raw.Ok() && StraysAt(r, f, got) && r.Takes(|bytes|) && next == r.Taking(bytes)
    ensures StraysAt(next, f, got + bytes)
  {
    SplitAt(got, bytes, f.at);
    StraysOn(r, Split(got[..f.at]).payloads, f.cap, got[f.at..], bytes, next);
  }

  lemma AstrayKeeps(r: Receiver, cap: nat, got: seq<Byte>, bytes: seq<Byte>, next: Receiver)
    requires r.raw.Ok() && Breaks(cap, 0, got) && r.Takes(|bytes|) && next == r.Taking(bytes)
    requires StraysAt(r, BreakAt(cap, 0, got), got)
    ensures Breaks(cap, 0, got + bytes) && StraysAt(next, BreakAt(cap, 0, got + bytes), got + bytes)
  {
    BreaksOn(cap, 0, got, bytes);
    BreakAtOn(cap, 0, got, bytes);
    StraysAtOn(r, BreakAt(cap, 0, got), got, bytes, next);
  }

  /** One more call, unless it is lost. */
  lemma TakingKeeps(r: Receiver, cap: nat, got: seq<Byte>, bytes: seq<Byte>, next: Receiver)
    requires Reached(r, cap, got) && r.Takes(|bytes|) && next == r.Taking(bytes)
    requires !next.fate.Lost? || !Stuck(Split(got + bytes).rest)
    ensures Reached(next, cap, got + bytes)
  {
    if Breaks(cap, 0, got) {
      AstrayKeeps(r, cap, got, bytes, next);
    } else {
      LostAtHeader(r, cap, got, bytes);
      if Breaks(cap, 0, got + bytes) {
        var f := StepBreaks(r, cap, got, bytes, next);
      } else {
        StepStays(r, cap, got, bytes, next);
      }
    }
  }

  /** In step, only an unreadable header loses a call. */
  lemma LostAtHeader(r: Receiver, cap: nat, got: seq<Byte>, bytes: seq<Byte>)
    requires InStep(r, cap, got) && r.Takes(|bytes|)
    ensures r.Taking(bytes).fate.Lost? <==> Stuck(Split(got + bytes).rest)
  {
    CallRefines(r.raw, bytes);
    InStepSplits(r, cap, got, bytes);
  }

  /** Bytes that no run of calls is sure to get past: they break the buffer or hold an unreadable
      header. */
  predicate Spoilt(cap: nat, got: seq<Byte>) { Breaks(cap, 0, got) || Stuck(Split(got).rest) }

  lemma {:induction false} SpoiltOn(cap: nat, got: seq<Byte>, bytes: seq<Byte>)
    requires Spoilt(cap, got)
    ensures Spoilt(cap, got + bytes)
  {
    if Breaks(cap, 0, got) {
      BreaksOn(cap, 0, got, bytes);
    } else {
      var rest := Split(got).rest;
      FirstLenOfPrefix(rest, bytes);
      SplitAppend(got, bytes);
    }
  }

  /** Only such bytes lose a call. */
  lemma LostIsSpoilt(r: Receiver, cap: nat, got: seq<Byte>, bytes: seq<Byte>)
    requires Reached(r, cap, got) && r.Takes(|bytes|) && r.Taking(bytes).fate.Lost?
    ensures Spoilt(cap, got + bytes)
  {
    if Breaks(cap, 0, got) {
      BreaksOn(cap, 0, got, bytes);
    } else {
      LostAtHeader(r, cap, got, bytes);
    }
  }

  /** Of a framed stream that does not break the buffer, a receiver has delivered what has come. */
  lemma ReachedDelivers(r: Receiver, cap: nat, got: seq<Byte>, ms: seq<Message>)
    requires Reached(r, cap, got) && AllPrintable(ms) && got <= Frames(ms) && !BreaksBy(cap, 0, ms, |got|)
    ensures r.raw.Sound() && r.raw.delivered <= Payloads(ms)
    ensures got == Frames(ms) ==> r.raw.delivered == Payloads(ms)
  {
    SizesBreak(cap, 0, ms, got);
    SplitPrefix(ms, got);
    SplitFrames(ms);
  }
}
