/** Sender, byte stream and receiver together: what one side accepts is what the other delivers. */
module EndToEnd {
  import opened Header
  import opened Framing
  import opened Cursors
  import opened Receive
  import opened RawReceive
  import opened Send
  import opened Links

  /** `got` bytes of the wire have reached the receiver, which goes on whatever has become of its
      buffer, until a call refuses or is lost. */
  datatype System = System(link: Link, got: nat, recv: Receiver)

  /** A step of a sending thread, or one `RecvData` call that is given the next `n` bytes. */
  datatype Event = Sends(action: Action) | Receives(n: nat)

  ghost function Begin(cap: nat): System { System(START, 0, NewReceiver(cap)) }

  /** The next `n` bytes are on the wire, and the receiver has a window for them. */
  ghost predicate CanReceive(y: System, n: nat) {
    y.recv.raw.Ok() && y.recv.Takes(n) && y.got + n <= |y.link.s.wire|
  }

  function Fed(y: System, n: nat, r: Receiver): System { y.(got := y.got + n, recv := r) }

  ghost function Next(y: System, e: Event): System {
    match e
    case Sends(action) => y.(link := Step(y.link, action))
    case Receives(n) =>
      if CanReceive(y, n) then Fed(y, n, y.recv.Taking(y.link.s.wire[y.got..y.got + n])) else y
  }

  ghost function Trace(y: System, events: seq<Event>): System
    decreases |events|
  {
    if events == [] then y else Trace(Next(y, events[0]), events[1..])
  }

  /** A message sent has a length the header can express. */
  ghost predicate Sendable(events: seq<Event>) {
    forall e :: e in events && e.Sends? && e.action.LockSend? ==> e.action.msg.Printable()
  }

  /** The messages accepted, in lock order. */
  ghost function Taken(y: System): seq<Message> { Messages(y.link.taken) }

  /** The bytes that have reached the receiver. */
  ghost function Arrived(y: System): seq<Byte>
    requires y.got <= |y.link.s.wire|
  {
    y.link.s.wire[..y.got]
  }

  ghost predicate SysInv(y: System, cap: nat) {
    && Inv(y.link) && AllPrintable(Taken(y))
    && y.got <= |y.link.s.wire| && Reached(y.recv, cap, Arrived(y))
  }

  /** Nothing is held back by the sender, and all has been received or the receiver has stopped. */
  ghost predicate Done(y: System) {
    && !y.link.broken && y.link.holder == NoOne && y.link.s.pending == []
    && (y.got == |y.link.s.wire| || !y.recv.fate.Runs?)
  }

  // ------------------------------------------------------------------ the invariant

  lemma LastDropped(es: seq<Entry>)
    ensures forall m :: m in Messages(DropLast(es)) ==> m in Messages(es)
  {
    if es != [] {
      assert es == DropLast(es) + [es[|es| - 1]];
      MessagesLast(DropLast(es), es[|es| - 1]);
    }
  }

  lemma TakenPrintable(y: System, a: Action)
    requires AllPrintable(Taken(y)) && (a.LockSend? ==> a.msg.Printable())
    ensures AllPrintable(Messages(Step(y.link, a).taken))
  {
    TakenChanges(y.link, a);
    LastDropped(y.link.taken);
    if a.LockSend? { MessagesLast(y.link.taken, Entry(a.tid, a.msg)); }
  }

  /** The sending side has moved on to `m`. */
  lemma LinkAdvances(y: System, m: Link, cap: nat)
    requires SysInv(y, cap)
    requires Inv(m) && AllPrintable(Messages(m.taken)) && y.link.s.wire <= m.s.wire
    ensures SysInv(y.(link := m), cap) && Arrived(y.(link := m)) == Arrived(y)
  {
    assert m.s.wire[..y.got] == y.link.s.wire[..y.got];
  }

  lemma SendsKeepsInv(y: System, a: Action, cap: nat)
    requires SysInv(y, cap) && (a.LockSend? ==> a.msg.Printable())
    ensures SysInv(Next(y, Sends(a)), cap)
  {
    StepInv(y.link, a);
    TakenPrintable(y, a);
    LinkAdvances(y, Step(y.link, a), cap);
  }

  /** What has arrived is a prefix of the frames taken, so no header in it is unreadable. */
  lemma ArrivedPrefix(y: System, k: nat)
    requires Inv(y.link) && AllPrintable(Taken(y)) && k <= |y.link.s.wire|
    ensures y.link.s.wire[..k] <= Frames(Taken(y)) && !Stuck(Split(y.link.s.wire[..k]).rest)
  {
    assert y.link.s.wire[..k] <= y.link.s.wire;
    SplitPrefix(Taken(y), y.link.s.wire[..k]);
  }

  lemma ArriveTogether(wire: seq<Byte>, got: nat, n: nat)
    requires got + n <= |wire|
    ensures wire[..got + n] == wire[..got] + wire[got..got + n]
  {
  }

  lemma NextTail(y: System, n: nat)
    requires Inv(y.link) && AllPrintable(Taken(y)) && y.got + n <= |y.link.s.wire|
    ensures !Stuck(Split(Arrived(y) + y.link.s.wire[y.got..y.got + n]).rest)
  {
    ArriveTogether(y.link.s.wire, y.got, n);
    ArrivedPrefix(y, y.got + n);
  }

  lemma ReceiverAdvances(y: System, n: nat, r: Receiver, cap: nat)
    requires SysInv(y, cap) && y.got + n <= |y.link.s.wire|
    requires Reached(r, cap, Arrived(y) + y.link.s.wire[y.got..y.got + n])
    ensures SysInv(Fed(y, n, r), cap)
  {
    ArriveTogether(y.link.s.wire, y.got, n);
    var z := Fed(y, n, r);
    assert Arrived(z) == Arrived(y) + y.link.s.wire[y.got..y.got + n];
    assert Taken(z) == Taken(y) && Reached(z.recv, cap, Arrived(z));
  }

  /** A receiver that has taken the next bytes and stands as it should. */
  lemma FedKeepsInv(y: System, n: nat, r: Receiver, cap: nat)
    requires SysInv(y, cap) && CanReceive(y, n)
    requires r == y.recv.Taking(y.link.s.wire[y.got..y.got + n])
    ensures SysInv(Fed(y, n, r), cap)
  {
    NextTail(y, n);
    TakingKeeps(y.recv, cap, Arrived(y), y.link.s.wire[y.got..y.got + n], r);
    ReceiverAdvances(y, n, r, cap);
  }

  lemma NextIsFed(y: System, n: nat) returns (z: System)
    requires CanReceive(y, n)
    ensures z == Next(y, Receives(n)) && z == Fed(y, n, z.recv)
    ensures z.recv == y.recv.Taking(y.link.s.wire[y.got..y.got + n])
  {
    z := Next(y, Receives(n));
  }

  lemma ReceivesKeepsInv(y: System, n: nat, cap: nat) returns (z: System)
    requires SysInv(y, cap) && CanReceive(y, n)
    ensures z == Next(y, Receives(n)) && SysInv(z, cap)
    ensures z.link == y.link && z.got == y.got + n
  {
    z := NextIsFed(y, n);
    FedKeepsInv(y, n, z.recv, cap);
  }

  lemma NextKeepsInv(y: System, e: Event, cap: nat) returns (z: System)
    requires SysInv(y, cap) && (e.Sends? && e.action.LockSend? ==> e.action.msg.Printable())
    ensures z == Next(y, e) && SysInv(z, cap)
  {
    z := Next(y, e);
    if e.Sends? {
      SendsKeepsInv(y, e.action, cap);
    } else if CanReceive(y, e.n) {
      z := ReceivesKeepsInv(y, e.n, cap);
    }
  }

  lemma {:induction false} TraceInv(y: System, events: seq<Event>, cap: nat)
    requires SysInv(y, cap) && Sendable(events)
    ensures SysInv(Trace(y, events), cap)
    decreases |events|
  {
    if events != [] {
      var z := NextKeepsInv(y, events[0], cap);
      TraceInv(z, events[1..], cap);
    }
  }

  lemma FromBegin(cap: nat, events: seq<Event>)
    requires cap >= HEADER_SIZE && Sendable(events)
    ensures SysInv(Begin(cap), cap) && SysInv(Trace(Begin(cap), events), cap)
  {
    StartInv();
    UnusedReached(RawFresh(cap));
    TraceInv(Begin(cap), events, cap);
  }

  // ---------------------------------------------------- what every run delivers

  /** The sizes of the messages taken, and how many bytes have come, tell whether the receive buffer is
      broken. */
  lemma BrokenBySizes(y: System, cap: nat)
    requires SysInv(y, cap)
    ensures Breaks(cap, 0, Arrived(y)) <==> BreaksBy(cap, 0, Taken(y), y.got)
    ensures y.recv.broken <==> BreaksBy(cap, 0, Taken(y), y.got)
  {
    ArrivedPrefix(y, y.got);
    SizesBreak(cap, 0, Taken(y), Arrived(y));
  }

  lemma InStepDelivers(y: System, cap: nat)
    requires SysInv(y, cap) && InStep(y.recv, cap, Arrived(y))
    ensures y.recv.raw.delivered <= Payloads(Taken(y)) && y.recv.raw.cur.LinearFree() > 0
    ensures Done(y) ==> y.recv.raw.delivered == Payloads(Taken(y)) && y.recv.raw.cur.fill == 0
  {
    OkHasWindow(y.recv.raw.View());
    ArrivedPrefix(y, y.got);
    SplitPrefix(Taken(y), Arrived(y));
    if Done(y) {
      assert Arrived(y) == y.link.s.wire;
      assert y.link.s.Stream() + [] == y.link.s.wire;
      SplitFrames(Taken(y));
    }
  }

  /** End to end: over every interleaving of sending threads, drains, partial, blocked, interrupted
      and failing sends and receives of any size, as long as the bytes received do not reach the
      header of a frame that breaks the buffer, the payloads delivered are a prefix of those accepted
      in lock order, the next receive has a window, and once nothing is held back or on its way all
      have been delivered. */
  lemma DeliveredInOrder(cap: nat, events: seq<Event>)
    requires cap >= HEADER_SIZE && Sendable(events)
    requires var y := Trace(Begin(cap), events); !BreaksBy(cap, 0, Taken(y), y.got)
    ensures var y := Trace(Begin(cap), events);
            && y.recv.fate.Runs? && y.recv.raw.Sound() && y.recv.raw.cur.LinearFree() > 0
            && y.recv.raw.delivered <= Payloads(Taken(y))
            && (Done(y) ==> y.recv.raw.delivered == Payloads(Taken(y)) && y.recv.raw.cur.fill == 0)
  {
    var y := Trace(Begin(cap), events);
    FromBegin(cap, events);
    BrokenBySizes(y, cap);
    InStepDelivers(y, cap);
  }

  /** The stream from the frame on that breaks the buffer. */
  lemma BreakInStream(y: System, cap: nat)
    requires SysInv(y, cap) && Breaks(cap, 0, Arrived(y))
    ensures !Safe(cap, 0, Taken(y))
    ensures var ms, f := Taken(y), Breaker(cap, 0, Taken(y));
            && f.at < |ms| && f.cap < ms[f.at].Size()
            && var k := OffsetOf(ms, f.at);
               && BreakAt(cap, 0, Arrived(y)) == Fault(k, f.cap) && k <= y.got
               && Arrived(y)[..k] == Frames(ms[..f.at]) && Arrived(y)[k..] <= Frames(ms[f.at..])
  {
    var ms := Taken(y);
    ArrivedPrefix(y, y.got);
    SizesBreak(cap, 0, ms, Arrived(y));
    SafeNeverBreaks(cap, 0, ms, y.got);
    BreakerFrame(cap, 0, ms);
    BreakerBreaks(cap, 0, ms, Arrived(y));
    BreakWithin(cap, 0, Arrived(y));
    FramesAround(ms, Breaker(cap, 0, ms).at, Arrived(y));
  }

  lemma FramesAround(ms: seq<Message>, j: nat, s: seq<Byte>)
    requires j <= |ms| && s <= Frames(ms) && |Frames(ms[..j])| <= |s|
    ensures s[..|Frames(ms[..j])|] == Frames(ms[..j]) && s[|Frames(ms[..j])|..] <= Frames(ms[j..])
  {
    assert ms == ms[..j] + ms[j..];
    FramesAppend(ms[..j], ms[j..]);
    PrefixParts(s, Frames(ms[..j]), Frames(ms[j..]));
  }

  lemma PrefixParts(s: seq<Byte>, a: seq<Byte>, b: seq<Byte>)
    requires s <= a + b && |a| <= |s|
    ensures s[..|a|] == a && s[|a|..] <= b
  {
    assert s[..|a|] == (a + b)[..|a|] == a;
    assert s[|a|..] == (a + b)[|a|..|s|] == b[..|s| - |a|];
  }

  /** Of the frame that breaks the buffer, as long as it has not come whole, nothing is delivered; then
      the receiver stops, or delivers the bytes `f.cap` places further on in the stream. */
  ghost predicate Misdelivered(delivered: seq<seq<Byte>>, ms: seq<Message>, f: Fault)
    requires f.at < |ms|
  {
    var before, t, n := Payloads(ms[..f.at]), Frames(ms[f.at..]), ms[f.at].Size();
    || delivered == before
    || (f.cap + n <= |t| && before + [Shifted(t, f.cap, n)] <= delivered)
  }

  lemma FirstOfRest(ms: seq<Message>, j: nat, t: seq<Byte>)
    requires AllPrintable(ms) && j < |ms| && t <= Frames(ms[j..]) && |t| >= HEADER_SIZE
    ensures FirstLen(t) == Some(ms[j].Size())
  {
    FrameBoundary(ms[j..], t);
    FirstLenOfFrame(ms[j], t);
  }

  lemma ShiftedInStream(t: seq<Byte>, whole: seq<Byte>, small: nat, n: nat)
    requires t <= whole && small + n <= |t| && n >= HEADER_SIZE
    ensures Shifted(t, small, n) == Shifted(whole, small, n)
  {
    assert t == whole[..|t|];
    SubSlice(whole, 0, |t|, small + HEADER_SIZE, small + n);
  }

  /** What a stray receiver has delivered, in terms of the messages. */
  lemma StraysInStream(r: Receiver, t: seq<Byte>, ms: seq<Message>, f: Fault)
    requires AllPrintable(ms) && f.at < |ms| && t <= Frames(ms[f.at..])
    requires Strays(r, Payloads(ms[..f.at]), f.cap, t)
    ensures FirstLen(t) == Some(ms[f.at].Size()) && Misdelivered(r.raw.delivered, ms, f)
  {
    FirstOfRest(ms, f.at, t);
    if f.cap + ms[f.at].Size() <= |t| {
      ShiftedInStream(t, Frames(ms[f.at..]), f.cap, ms[f.at].Size());
    }
  }

  lemma StrayDelivers(y: System, cap: nat)
    requires SysInv(y, cap) && Breaks(cap, 0, Arrived(y)) && !Safe(cap, 0, Taken(y))
    ensures var ms, f := Taken(y), Breaker(cap, 0, Taken(y));
            && f.at < |ms| && Misdelivered(y.recv.raw.delivered, ms, f)
            && OffsetOf(ms, f.at) <= y.got
            && Strays(y.recv, Payloads(ms[..f.at]), f.cap, Arrived(y)[OffsetOf(ms, f.at)..])
            && FirstLen(Arrived(y)[OffsetOf(ms, f.at)..]) == Some(ms[f.at].Size())
  {
    var ms, f := Taken(y), Breaker(cap, 0, Taken(y));
    BreakInStream(y, cap);
    SplitFrames(ms[..f.at]);
    StraysInStream(y.recv, Arrived(y)[OffsetOf(ms, f.at)..], ms, f);
  }

  /** Over every interleaving in which the bytes received reach that header: the messages before it are
      delivered, and in place of its own payload nothing, or other bytes of the stream. */
  lemma DeliveredInstead(cap: nat, events: seq<Event>)
    requires cap >= HEADER_SIZE && Sendable(events)
    requires var y := Trace(Begin(cap), events); BreaksBy(cap, 0, Taken(y), y.got)
    ensures var y := Trace(Begin(cap), events);
            && y.recv.broken && !Safe(cap, 0, Taken(y))
            && var f := Breaker(cap, 0, Taken(y));
               f.at < |Taken(y)| && Misdelivered(y.recv.raw.delivered, Taken(y), f)
  {
    var y := Trace(Begin(cap), events);
    FromBegin(cap, events);
    BrokenBySizes(y, cap);
    BreakInStream(y, cap);
    StrayDelivers(y, cap);
  }

  // --------------------------------------------------------------- traces in parts

  lemma {:induction false} TraceAppend(y: System, a: seq<Event>, b: seq<Event>)
    ensures Trace(y, a + b) == Trace(Trace(y, a), b)
    decreases |a|
  {
    if a == [] {
      assert a + b == b;
    } else {
      assert (a + b)[1..] == a[1..] + b;
      TraceAppend(Next(y, a[0]), a[1..], b);
    }
  }

  /** No new message is taken, and the event loop drains only when it is woken: EPOLLOUT is armed. */
  ghost predicate FinishesOnly(y: System, events: seq<Event>)
    decreases |events|
  {
    if events == [] then true
    else
      && (events[0].Sends? ==>
            && !events[0].action.LockSend?
            && (events[0].action.LockDrain? ==> y.link.s.wantOut))
      && FinishesOnly(Next(y, events[0]), events[1..])
  }

  lemma {:induction false} FinishesAppend(y: System, a: seq<Event>, b: seq<Event>)
    requires FinishesOnly(y, a) && FinishesOnly(Trace(y, a), b)
    ensures FinishesOnly(y, a + b)
    decreases |a|
  {
    if a == [] {
      assert a + b == b;
    } else {
      assert (a + b)[1..] == a[1..] + b;
      FinishesAppend(Next(y, a[0]), a[1..], b);
    }
  }

  lemma {:induction false} FinishingSendable(y: System, events: seq<Event>)
    requires FinishesOnly(y, events)
    ensures Sendable(events)
    decreases |events|
  {
    if events != [] {
      FinishingSendable(Next(y, events[0]), events[1..]);
      assert forall e :: e in events ==> e == events[0] || e in events[1..];
    }
  }

  lemma FinishesOne(y: System, e: Event)
    requires e.Sends? ==> !e.action.LockSend? && (e.action.LockDrain? ==> y.link.s.wantOut)
    ensures FinishesOnly(y, [e]) && Trace(y, [e]) == Next(y, e)
  {
    assert [e][1..] == [];
    assert FinishesOnly(Next(y, e), []);
  }

  // ------------------------------------------------ received byte by byte

  /** Of the frame that breaks the buffer, no more than itself has come. */
  ghost predicate Held(y: System, cap: nat) {
    && SysInv(y, cap)
    && (Breaks(cap, 0, Arrived(y)) ==>
          var k := BreakAt(cap, 0, Arrived(y)).at;
          k <= y.got && FirstLen(Arrived(y)[k..]).Some? && y.got - k <= FirstLen(Arrived(y)[k..]).value)
  }

  lemma HeldStrays(y: System, cap: nat)
    requires cap >= HEADER_SIZE && Held(y, cap) && Breaks(cap, 0, Arrived(y))
    ensures var f := BreakAt(cap, 0, Arrived(y));
            && f.at <= y.got && y.recv.raw.delivered == Split(Arrived(y)[..f.at]).payloads
            && (y.recv.fate.Runs? ==> Astray(y.recv.raw, f.cap, Arrived(y)[f.at..])
                                      && y.got - f.at < FirstLen(Arrived(y)[f.at..]).value)
            && (!y.recv.fate.Runs? ==> y.got - f.at >= FirstLen(Arrived(y)[f.at..]).value)
  {
    BreakWithin(cap, 0, Arrived(y));
  }

  /** A receiver that runs has a window, in step or waiting for the frame that broke its buffer. */
  lemma HeldHasWindow(y: System, cap: nat)
    requires cap >= HEADER_SIZE && Held(y, cap) && y.recv.fate.Runs?
    ensures y.recv.raw.cur.LinearFree() > 0
  {
    if Breaks(cap, 0, Arrived(y)) {
      var f := BreakAt(cap, 0, Arrived(y));
      HeldStrays(y, cap);
      AstrayWindow(y.recv.raw, f.cap, Arrived(y)[f.at..], []);
    } else {
      OkHasWindow(y.recv.raw.View());
    }
  }

  /** With one byte more. */
  lemma BreakHeld(cap: nat, got: seq<Byte>, b: seq<Byte>)
    requires |b| == 1 && Breaks(cap, 0, got + b)
    requires Breaks(cap, 0, got) ==>
               var k := BreakAt(cap, 0, got).at;
               k <= |got| && FirstLen(got[k..]).Some? && |got| - k < FirstLen(got[k..]).value
    ensures var k := BreakAt(cap, 0, got + b).at;
            k <= |got + b| && FirstLen((got + b)[k..]).Some? && |got + b| - k <= FirstLen((got + b)[k..]).value
  {
    var k := BreakAt(cap, 0, got + b).at;
    BreakWithin(cap, 0, got + b);
    if Breaks(cap, 0, got) {
      BreakAtOn(cap, 0, got, b);
      SplitAt(got, b, k);
      FirstOfMore(got[k..], b);
    } else {
      BreakJust(cap, 0, got, b);
    }
  }

  lemma OneByte(y: System, cap: nat) returns (z: System)
    requires cap >= HEADER_SIZE && Held(y, cap) && y.recv.fate.Runs? && y.got < |y.link.s.wire|
    ensures z == Next(y, Receives(1)) && Held(z, cap) && z.link == y.link && z.got == y.got + 1
  {
    HeldHasWindow(y, cap);
    z := ReceivesKeepsInv(y, 1, cap);
    ArriveTogether(y.link.s.wire, y.got, 1);
    if Breaks(cap, 0, Arrived(y)) { HeldStrays(y, cap); }
    ByteHeld(cap, Arrived(y), y.link.s.wire[y.got..y.got + 1], Arrived(z));
  }

  lemma ByteHeld(cap: nat, got: seq<Byte>, b: seq<Byte>, all: seq<Byte>)
    requires |b| == 1 && all == got + b
    requires Breaks(cap, 0, got) ==>
               var k := BreakAt(cap, 0, got).at;
               k <= |got| && FirstLen(got[k..]).Some? && |got| - k < FirstLen(got[k..]).value
    ensures Breaks(cap, 0, all) ==>
              var k := BreakAt(cap, 0, all).at;
              k <= |all| && FirstLen(all[k..]).Some? && |all| - k <= FirstLen(all[k..]).value
  {
    if Breaks(cap, 0, got + b) { BreakHeld(cap, got, b); }
  }

  /** Byte by byte the receiver takes what is on the wire up to the `k`-th byte, unless it stops. */
  lemma {:induction false} ReceiveTo(y: System, cap: nat, k: nat) returns (more: seq<Event>)
    requires cap >= HEADER_SIZE && Held(y, cap) && y.got <= k <= |y.link.s.wire|
    ensures FinishesOnly(y, more) && Held(Trace(y, more), cap)
    ensures var z := Trace(y, more);
            z.link == y.link && z.got <= k && (z.recv.fate.Runs? ==> z.got == k)
    decreases k - y.got
  {
    if y.got == k || !y.recv.fate.Runs? {
      more := [];
    } else {
      var z := OneByte(y, cap);
      var rest := ReceiveTo(z, cap, k);
      more := [Receives(1)] + rest;
      assert more[1..] == rest;
    }
  }

  // ----------------------------------------- exactly which streams are always delivered

  /** A link with nothing to do. */
  ghost predicate Idle(l: Link) {
    Inv(l) && !l.broken && l.holder == NoOne && l.s.pending == []
  }

  lemma SendOne(y: System, m: Message) returns (z: System)
    requires Idle(y.link)
    ensures z == Next(Next(y, Sends(LockSend(0, m))), Sends(StepSend(0, Accepts(m.Size()), true)))
    ensures Idle(z.link) && Taken(z) == Taken(y) + [m] && z.link.s.wire == y.link.s.wire + m.Frame()
    ensures z.got == y.got && z.recv == y.recv
  {
    var u := Next(y, Sends(LockSend(0, m)));
    z := Next(u, Sends(StepSend(0, Accepts(m.Size()), true)));
    StepInv(y.link, LockSend(0, m));
    StepInv(u.link, StepSend(0, Accepts(m.Size()), true));
    MessagesLast(y.link.taken, Entry(0, m));
    assert m.Frame()[0..m.Size()] == m.Frame();
  }

  lemma TraceTwo(y: System, a: Event, b: Event, rest: seq<Event>)
    ensures Trace(y, [a, b] + rest) == Trace(Next(Next(y, a), b), rest)
  {
    assert ([a, b] + rest)[1..] == [b] + rest && ([b] + rest)[1..] == rest;
  }

  /** `z` has taken and sent the messages `ms` more than `y`. */
  ghost predicate HasSent(y: System, z: System, ms: seq<Message>) {
    && Idle(z.link) && Taken(z) == Taken(y) + ms && z.link.s.wire == y.link.s.wire + Frames(ms)
    && z.got == y.got && z.recv == y.recv
  }

  lemma SentMore(y: System, x: System, z: System, ms: seq<Message>)
    requires ms != [] && HasSent(x, z, ms[1..]) && x.got == y.got && x.recv == y.recv
    requires Taken(x) == Taken(y) + [ms[0]] && x.link.s.wire == y.link.s.wire + ms[0].Frame()
    ensures HasSent(y, z, ms)
  {
    SameTriple(Taken(y), [ms[0]], ms[1..]);
    assert [ms[0]] + ms[1..] == ms;
    SameTriple(y.link.s.wire, ms[0].Frame(), Frames(ms[1..]));
  }

  /** One thread sends the messages, the socket taking each at once. */
  lemma {:induction false} SendAll(y: System, ms: seq<Message>) returns (events: seq<Event>)
    requires Idle(y.link) && AllPrintable(ms)
    ensures Sendable(events) && HasSent(y, Trace(y, events), ms)
    decreases |ms|
  {
    if ms == [] {
      events := [];
      assert Taken(y) + [] == Taken(y) && y.link.s.wire + [] == y.link.s.wire;
    } else {
      var m := ms[0];
      var x := SendOne(y, m);
      var rest := SendAll(x, ms[1..]);
      var a, b := Sends(LockSend(0, m)), Sends(StepSend(0, Accepts(m.Size()), true));
      TraceTwo(y, a, b, rest);
      SentMore(y, x, Trace(x, rest), ms);
      events := [a, b] + rest;
    }
  }

  /** All messages are sent from the start, and the receiver takes `k` bytes one by one. */
  lemma SentAndReceived(cap: nat, ms: seq<Message>, k: nat) returns (events: seq<Event>)
    requires cap >= HEADER_SIZE && AllPrintable(ms) && k <= |Frames(ms)|
    ensures Sendable(events)
    ensures var z := Trace(Begin(cap), events);
            && Held(z, cap) && Idle(z.link) && Taken(z) == ms && z.link.s.wire == Frames(ms)
            && z.got <= k && (z.recv.fate.Runs? ==> z.got == k)
  {
    StartInv();
    FromBegin(cap, []);
    var a := SendAll(Begin(cap), ms);
    TraceInv(Begin(cap), a, cap);
    var y := Trace(Begin(cap), a);
    assert [] + ms == ms && [] + Frames(ms) == Frames(ms);
    assert Arrived(y) == [];
    var b := ReceiveTo(y, cap, k);
    TraceAppend(Begin(cap), a, b);
    FinishingSendable(y, b);
    events := a + b;
  }

  /** Any unsafe list of messages is lost from its breaking message on, in a run in which every send
      succeeds and nothing is held back: fed byte by byte, the receiver refuses the frame once it is
      complete. */
  lemma LossReachable(cap: nat, ms: seq<Message>)
    requires cap >= HEADER_SIZE && AllPrintable(ms) && !Safe(cap, 0, ms)
    ensures exists events :: Sendable(events)
              && var z := Trace(Begin(cap), events);
                 && Taken(z) == ms && Done(z) && Breaker(cap, 0, ms).at < |ms|
                 && z.recv.raw.delivered == Payloads(ms[..Breaker(cap, 0, ms).at])
  {
    var events := SentAndReceived(cap, ms, |Frames(ms)|);
    var z := Trace(Begin(cap), events);
    BrokenBySizes(z, cap);
    SafeNeverBreaks(cap, 0, ms, |Frames(ms)|);
    if !Breaks(cap, 0, Arrived(z)) {
      assert false;
    }
    HeldStrays(z, cap);
    BreakInStream(z, cap);
    SplitFrames(ms[..Breaker(cap, 0, ms).at]);
    if z.recv.fate.Runs? {
      StrayDelivers(z, cap);
    }
  }

  /** Every complete run that accepts exactly these messages delivers them all. */
  ghost predicate AlwaysDelivered(cap: nat, ms: seq<Message>) {
    forall events :: Sendable(events) && Taken(Trace(Begin(cap), events)) == ms
                     && Done(Trace(Begin(cap), events)) ==>
      Trace(Begin(cap), events).recv.raw.delivered == Payloads(ms)
  }

  /** Exactly the lists of messages with safe sizes are always delivered. */
  lemma DeliveredExactly(cap: nat, ms: seq<Message>)
    requires cap >= HEADER_SIZE && AllPrintable(ms)
    ensures Safe(cap, 0, ms) <==> AlwaysDelivered(cap, ms)
  {
    if Safe(cap, 0, ms) {
      forall events | Sendable(events) && Taken(Trace(Begin(cap), events)) == ms
                      && Done(Trace(Begin(cap), events))
        ensures Trace(Begin(cap), events).recv.raw.delivered == Payloads(ms)
      {
        SafeNeverBreaks(cap, 0, ms, Trace(Begin(cap), events).got);
        DeliveredInOrder(cap, events);
      }
    } else {
      LossReachable(cap, ms);
    }
  }

  /** If every message accepted fits the receive buffer framed, then on every run the receiver is sound
      with its capacity as it was, the cached length agrees with the buffered header, and the next
      receive has a window. */
  lemma NeverStalls(cap: nat, events: seq<Event>)
    requires cap >= HEADER_SIZE && Sendable(events)
    requires forall m :: m in Taken(Trace(Begin(cap), events)) ==> m.Size() <= cap
    ensures var y := Trace(Begin(cap), events);
            && y.recv.fate.Runs? && y.recv.raw.Sound() && y.recv.raw.cur.cap == cap
            && y.recv.raw.cur.LinearFree() > 0 && y.recv.raw.cached == FirstLen(y.recv.raw.View().unread)
  {
    var y := Trace(Begin(cap), events);
    FittingIsSafe(cap, 0, Taken(y));
    SafeNeverBreaks(cap, 0, Taken(y), y.got);
    DeliveredInOrder(cap, events);
    FromBegin(cap, events);
    BrokenBySizes(y, cap);
    ArrivedPrefix(y, y.got);
    FittingStands(cap, 0, Taken(y), Arrived(y));
  }

  // ---------------------------------------- whatever is accepted can still be delivered

  /** Whoever holds the lock can let go in one step, given a willing socket. */
  function Release(l: Link): Action
    requires l.holder != NoOne
  {
    match l.holder
    case Sender(tid, frame, _) => StepSend(tid, Accepts(|frame|), true)
    case Drainer(tid) => StepDrain(tid, WouldBlock, true)
  }

  lemma ReleaseReleases(l: Link)
    requires Inv(l) && !l.broken && l.holder != NoOne
    ensures var m := Step(l, Release(l));
            m.holder == NoOne && !m.broken && m.taken == l.taken
  {
  }

  /** The receiver is in step, and what has been accepted will not change that. */
  ghost predicate Ready(y: System, cap: nat) {
    Held(y, cap) && Safe(cap, 0, Taken(y))
  }

  lemma ReadyRuns(y: System, cap: nat)
    requires Ready(y, cap)
    ensures !Breaks(cap, 0, Arrived(y)) && InStep(y.recv, cap, Arrived(y))
  {
    BrokenBySizes(y, cap);
    SafeNeverBreaks(cap, 0, Taken(y), y.got);
  }

  lemma SendsKeepsReady(y: System, a: Action, cap: nat)
    requires Ready(y, cap) && !a.LockSend? && Step(y.link, a).taken == y.link.taken
    ensures Ready(Next(y, Sends(a)), cap)
  {
    SendsKeepsInv(y, a, cap);
    ReadyRuns(y, cap);
    StepInv(y.link, a);
    assert Step(y.link, a).s.wire[..y.got] == Arrived(y);
  }

  /** The link is idle with an empty deque, and has taken what it had. */
  ghost predicate Flushed(y: System, z: System, cap: nat) {
    && Ready(z, cap) && !z.link.broken && z.link.holder == NoOne && z.link.s.pending == []
    && z.link.taken == y.link.taken
  }

  /** The holder of the lock for draining can empty the deque. */
  lemma {:induction false} DrainEmpties(y: System, cap: nat) returns (more: seq<Event>)
    requires Ready(y, cap) && !y.link.broken && y.link.holder == Drainer(0)
    ensures FinishesOnly(y, more) && Flushed(y, Trace(y, more), cap)
    decreases |y.link.s.pending|
  {
    var n := if y.link.s.pending == [] then 0 else |y.link.s.pending[0]|;
    var e := Sends(StepDrain(0, Accepts(n), true));
    more := [e];
    FinishesOne(y, e);
    SendsKeepsReady(y, e.action, cap);
    assert y.link.s.pending != [] ==> y.link.s.pending[0] in y.link.s.pending;
    if |y.link.s.pending| > 1 {
      var rest := DrainEmpties(Next(y, e), cap);
      TraceAppend(y, [e], rest);
      FinishesAppend(y, [e], rest);
      more := [e] + rest;
    }
  }

  lemma Unlock(y: System, cap: nat) returns (more: seq<Event>)
    requires Ready(y, cap) && !y.link.broken
    ensures var z := Trace(y, more);
            && FinishesOnly(y, more) && Ready(z, cap)
            && !z.link.broken && z.link.holder == NoOne && z.link.taken == y.link.taken
  {
    if y.link.holder == NoOne {
      more := [];
    } else {
      var e := Sends(Release(y.link));
      ReleaseReleases(y.link);
      SendsKeepsReady(y, e.action, cap);
      FinishesOne(y, e);
      more := [e];
    }
  }

  /** What waits in the deque has EPOLLOUT armed for it, so the event loop will be woken. */
  lemma FlushAll(y: System, cap: nat) returns (more: seq<Event>)
    requires Ready(y, cap) && !y.link.broken && y.link.holder == NoOne
    ensures FinishesOnly(y, more) && Flushed(y, Trace(y, more), cap)
  {
    if y.link.s.pending == [] {
      more := [];
    } else {
      var e := Sends(LockDrain(0));
      SendsKeepsReady(y, e.action, cap);
      FinishesOne(y, e);
      var rest := DrainEmpties(Next(y, e), cap);
      TraceAppend(y, [e], rest);
      FinishesAppend(y, [e], rest);
      more := [e] + rest;
    }
  }

  /** Everything `y` has accepted is delivered in `z`. */
  ghost predicate AllDelivered(y: System, z: System) {
    Done(z) && Taken(z) == Taken(y) && z.recv.raw.delivered == Payloads(Taken(y))
  }

  lemma FinishUp(y: System, cap: nat) returns (more: seq<Event>)
    requires cap >= HEADER_SIZE && Ready(y, cap) && !y.link.broken
    ensures FinishesOnly(y, more) && AllDelivered(y, Trace(y, more))
  {
    var a := Unlock(y, cap);
    var y1 := Trace(y, a);
    var b := FlushAll(y1, cap);
    var y2 := Trace(y1, b);
    var c := ReceiveTo(y2, cap, |y2.link.s.wire|);
    var y3 := Trace(y2, c);
    ReadyRuns(y3, cap);
    InStepDelivers(y3, cap);
    TraceAppend(y, a, b);
    TraceAppend(y, a + b, c);
    FinishesAppend(y, a, b);
    FinishesAppend(y, a + b, c);
    more := a + b + c;
  }

  /** No reachable state is a dead end: unless a send has failed halfway, and as long as the sizes
      accepted are safe, some continuation that takes no new message, and in which the event loop
      drains only when EPOLLOUT is armed, delivers everything accepted so far. */
  lemma CanAlwaysDeliver(cap: nat, events: seq<Event>)
    requires cap >= HEADER_SIZE && Sendable(events)
    requires var y := Trace(Begin(cap), events); !y.link.broken && Safe(cap, 0, Taken(y))
    ensures exists more ::
              && FinishesOnly(Trace(Begin(cap), events), more)
              && AllDelivered(Trace(Begin(cap), events), Trace(Begin(cap), events + more))
  {
    var y := Trace(Begin(cap), events);
    FromBegin(cap, events);
    BrokenBySizes(y, cap);
    SafeNeverBreaks(cap, 0, Taken(y), y.got);
    var more := FinishUp(y, cap);
    TraceAppend(Begin(cap), events, more);
  }

  // ------------------------------------------------------------- an input that fails

  lemma ThreeFrames(m1: Message, m2: Message, m3: Message)
    ensures var ms := [m1, m2, m3];
            && ms[1..] == [m2, m3] && ms[..1] == [m1]
            && Frames(ms[1..]) == m2.Frame() + m3.Frame() && Frames(ms[..1]) == m1.Frame()
            && Frames(ms) == m1.Frame() + (m2.Frame() + m3.Frame())
  {
    assert [m1, m2, m3][1..] == [m2, m3];
    PairFrames(m2, m3);
    OneFrame(m1);
  }

  /** The second message breaks the buffer as soon as its header has come. */
  lemma SecondBreaks(cap: nat, m1: Message, m2: Message, m3: Message, k: int)
    requires cap - HEADER_SIZE < m1.Size() <= cap < m2.Size() && k >= m1.Size() + HEADER_SIZE
    ensures var ms := [m1, m2, m3];
            BreaksBy(cap, 0, ms, k) && !Safe(cap, 0, ms) && Breaker(cap, 0, ms) == Fault(1, cap)
  {
    var ms := [m1, m2, m3];
    assert ms[1..][0] == m2;
  }

  /** The breaking frame has come but for its last byte. */
  ghost predicate AlmostWhole(z: System, cap: nat, m1: Message, m2: Message, m3: Message) {
    && Taken(z) == [m1, m2, m3] && Idle(z.link) && z.recv.fate.Runs?
    && z.link.s.wire == m1.Frame() + (m2.Frame() + m3.Frame())
    && z.got == m1.Size() + m2.Size() - 1 && z.recv.raw.delivered == [m1.payload]
    && Astray(z.recv.raw, cap, z.link.s.wire[m1.Size()..z.got]) && z.recv.raw.cached == Some(m2.Size())
  }

  lemma WaitsForLast(z: System, cap: nat, m1: Message, m2: Message, m3: Message)
    requires cap >= HEADER_SIZE && AllPrintable([m1, m2, m3])
    requires cap - HEADER_SIZE < m1.Size() <= cap < m2.Size()
    requires Held(z, cap) && Idle(z.link) && Taken(z) == [m1, m2, m3] && z.link.s.wire == Frames([m1, m2, m3])
    requires z.got <= m1.Size() + m2.Size() - 1
    requires z.recv.fate.Runs? ==> z.got == m1.Size() + m2.Size() - 1
    ensures AlmostWhole(z, cap, m1, m2, m3)
  {
    ThreeFrames(m1, m2, m3);
    BrokenBySizes(z, cap);
    SecondBreaks(cap, m1, m2, m3, m1.Size() + HEADER_SIZE);
    if z.recv.fate.Runs? {
      SecondBreaks(cap, m1, m2, m3, z.got);
    }
    BreakInStream(z, cap);
    StrayDelivers(z, cap);
    HeldStrays(z, cap);
    assert Arrived(z)[m1.Size()..] == z.link.s.wire[m1.Size()..z.got];
    assert Payloads([m1]) == [m1.payload];
  }

  lemma MiddleAndRest(wire: seq<Byte>, a: seq<Byte>, b: seq<Byte>, c: seq<Byte>, k: nat, n: nat)
    requires wire == a + (b + c) && k <= |b| && k + n == |b| + |c|
    ensures |wire| == |a| + k + n && wire[|a|..|a| + k] + wire[|a| + k..|a| + k + n] == b + c
  {
    assert wire[|a|..|a| + (k + n)] == b + c;
    assert wire[|a|..|a| + k] + wire[|a| + k..|a| + k + n] == wire[|a|..|a| + k + n];
  }

  /** A broken receiver that lacks one byte has room for as many as the whole frame and one more. */
  lemma RoomForMore(s: Raw, small: nat, t: seq<Byte>)
    requires Astray(s, small, t) && |t| + 1 == s.cached.value
    ensures s.cur.LinearFree() >= s.cached.value + 1
  {
  }

  lemma ShiftFollows(s: Raw, small: nat, t: seq<Byte>, bytes: seq<Byte>, all: seq<Byte>, n: nat)
    requires Astray(s, small, t) && s.cached == Some(n)
    requires t + bytes == all && |t| + 1 == n && small + n <= |all| <= 2 * n
    ensures |bytes| <= s.cur.LinearFree()
    ensures s.delivered + [Shifted(all, small, n)] <= Calling(s, bytes).raw.delivered
  {
    RoomForMore(s, small, t);
    AstrayCall(s, small, t, bytes);
  }

  /** All has been received, and in place of the second payload come the bytes `cap` places on. */
  ghost predicate SecondShifted(z: System, cap: nat, m1: Message, m2: Message, m3: Message)
    requires cap <= m3.Size()
  {
    && Taken(z) == [m1, m2, m3] && Done(z)
    && [m1.payload] + [Shifted(m2.Frame() + m3.Frame(), cap, m2.Size())] <= z.recv.raw.delivered
  }

  /** The last byte of the frame comes with all of the next. */
  lemma NextShifted(z: System, cap: nat, f1: seq<Byte>, m2: Message, m3: Message) returns (e: Event, x: System)
    requires cap < m2.Size() && cap <= m3.Size() <= m2.Size()
    requires z.link.s.wire == f1 + (m2.Frame() + m3.Frame()) && z.got == |f1| + m2.Size() - 1
    requires z.recv.fate.Runs? && Astray(z.recv.raw, cap, z.link.s.wire[|f1|..z.got])
    requires z.recv.raw.cached == Some(m2.Size())
    ensures e.Receives? && x == Next(z, e) && x.link == z.link && x.got == |z.link.s.wire|
    ensures z.recv.raw.delivered + [Shifted(m2.Frame() + m3.Frame(), cap, m2.Size())] <= x.recv.raw.delivered
  {
    var n := 1 + m3.Size();
    MiddleAndRest(z.link.s.wire, f1, m2.Frame(), m3.Frame(), m2.Size() - 1, n);
    ShiftFollows(z.recv.raw, cap, z.link.s.wire[|f1|..z.got], z.link.s.wire[z.got..z.got + n],
                 m2.Frame() + m3.Frame(), m2.Size());
    e := Receives(n);
    x := NextIsFed(z, n);
  }

  /** A run with no failed send in which the bytes delivered as the second payload are others: the
      second frame needs the buffer grown where its header does not lie in one piece, and the third
      arrives with its last byte. */
  lemma WrongPayload(cap: nat, m1: Message, m2: Message, m3: Message)
    requires cap >= HEADER_SIZE && AllPrintable([m1, m2, m3])
    requires cap - HEADER_SIZE < m1.Size() <= cap < m2.Size() && cap <= m3.Size() <= m2.Size()
    ensures exists events :: Sendable(events) && SecondShifted(Trace(Begin(cap), events), cap, m1, m2, m3)
  {
    var a := UpToLast(cap, m1, m2, m3);
    var y := Trace(Begin(cap), a);
    var e, z := NextShifted(y, cap, m1.Frame(), m2, m3);
    FinishesOne(y, e);
    TraceAppend(Begin(cap), a, [e]);
    assert z == Trace(Begin(cap), a + [e]) && Sendable(a + [e]);
  }

  lemma UpToLast(cap: nat, m1: Message, m2: Message, m3: Message) returns (events: seq<Event>)
    requires cap >= HEADER_SIZE && AllPrintable([m1, m2, m3])
    requires cap - HEADER_SIZE < m1.Size() <= cap < m2.Size()
    ensures Sendable(events) && AlmostWhole(Trace(Begin(cap), events), cap, m1, m2, m3)
  {
    ThreeFrames(m1, m2, m3);
    events := SentAndReceived(cap, [m1, m2, m3], m1.Size() + m2.Size() - 1);
    WaitsForLast(Trace(Begin(cap), events), cap, m1, m2, m3);
  }

  lemma FirstDigit(m: Message)
    requires m.Printable()
    ensures IsDigit(m.Frame()[0])
  {
    NineDigitsAtMost(|m.payload|);
    Int32OfSmall(|m.payload|);
    ShortHeader(|m.payload|, m.stale);
  }

  /** With a second payload of zeros, say, they differ from it: the third header is among them. */
  lemma NotThePayload(cap: nat, m2: Message, m3: Message)
    requires cap >= HEADER_SIZE && m3.Printable() && cap + HEADER_SIZE <= m2.Size() && cap <= m3.Size()
    requires forall b :: b in m2.payload ==> b == 0
    ensures Shifted(m2.Frame() + m3.Frame(), cap, m2.Size()) != m2.payload
  {
    FirstDigit(m3);
    var x, i := Shifted(m2.Frame() + m3.Frame(), cap, m2.Size()), m2.Size() - cap - HEADER_SIZE;
    assert x[i] == m3.Frame()[0] && m2.payload[i] in m2.payload;
  }
}
