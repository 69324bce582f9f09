/** One connection's sending side under concurrency: threads compete for the context's lock, and
    every single `send` is a step of its own. */
module Links {
  import opened Header
  import opened Framing
  import opened Send

  /** Who holds `ctx_lock`, with the local variables of the call in progress. */
  datatype Holder = NoOne | Sender(tid: nat, frame: seq<Byte>, sent: nat) | Drainer(tid: nat)

  /** A message taken by a `SendData` call, in the order the calls got the lock. */
  datatype Entry = Entry(tid: nat, msg: Message)

  /** `broken`: a call failed after part of its frame had gone out, or the drain failed. */
  datatype Link = Link(s: SendState, holder: Holder, taken: seq<Entry>, broken: bool)

  datatype Action =
    | LockSend(tid: nat, msg: Message)
    | StepSend(tid: nat, result: SockResult, epollOk: bool)
    | LockDrain(tid: nat)
    | StepDrain(tid: nat, result: SockResult, epollOk: bool)

  function DropLast(es: seq<Entry>): seq<Entry> { if es == [] then [] else es[..|es| - 1] }

  /** A refused call leaves no trace: its message was not taken after all. */
  function Refuse(l: Link): Link { l.(holder := NoOne, taken := DropLast(l.taken)) }

  function SendStep(l: Link, result: SockResult, epollOk: bool): Link
    requires l.holder.Sender? && l.holder.sent < |l.holder.frame|
  {
    var h := l.holder;
    var w := if l.s.isSentPending then Enqueue(l.s, h.frame, epollOk)
             else WriteOnce(l.s, h.frame, h.sent, result, epollOk);
    match w.status
    case Continues => l.(s := w.state, holder := h.(sent := w.sent))
    case Returns(true) => l.(s := w.state, holder := NoOne)
    case Returns(false) => if h.sent == 0 then Refuse(l) else l.(holder := NoOne, broken := true)
  }

  function DrainStep(l: Link, result: SockResult, epollOk: bool): Link
    requires l.holder.Drainer?
  {
    if l.s.pending == [] then l.(holder := NoOne)
    else
      var (t, status) := DrainOnce(l.s, result, epollOk);
      match status
      case Continues => l.(s := t)
      case Returns(true) => l.(s := t, holder := NoOne)
      case Returns(false) => l.(s := t, holder := NoOne, broken := true)
  }

  /** An action that its thread cannot take now changes nothing. */
  function Step(l: Link, a: Action): Link {
    if l.broken then l else
      match a
      case LockSend(tid, msg) =>
        if l.holder != NoOne then l
        else l.(holder := Sender(tid, msg.Frame(), 0), taken := l.taken + [Entry(tid, msg)])
      case StepSend(tid, result, epollOk) =>
        if l.holder.Sender? && l.holder.tid == tid && l.holder.sent < |l.holder.frame|
        then SendStep(l, result, epollOk) else l
      case LockDrain(tid) =>
        if l.holder != NoOne then l else l.(holder := Drainer(tid))
      case StepDrain(tid, result, epollOk) =>
        if l.holder == Drainer(tid) then DrainStep(l, result, epollOk) else l
  }

  function Run(l: Link, actions: seq<Action>): Link
    decreases |actions|
  {
    if actions == [] then l else Run(Step(l, actions[0]), actions[1..])
  }

  const START: Link := Link(SendState([], [], false, false), NoOne, [], false)

  ghost function Messages(es: seq<Entry>): (ms: seq<Message>)
    ensures |ms| == |es| && forall i :: 0 <= i < |es| ==> ms[i] == es[i].msg
  {
    if es == [] then [] else [es[0].msg] + Messages(es[1..])
  }

  lemma {:induction false} MessagesLast(es: seq<Entry>, e: Entry)
    ensures Messages(es + [e]) == Messages(es) + [e.msg]
  {
  }

  /** All frames taken so far, in lock order. */
  ghost function TakenStream(l: Link): seq<Byte> { Frames(Messages(l.taken)) }

  ghost function InHand(l: Link): seq<Byte> {
    if l.holder.Sender? && l.holder.sent <= |l.holder.frame| then l.holder.frame[l.holder.sent..] else []
  }

  // -------------------------------------------------------------- the invariant

  ghost predicate HandOk(l: Link) {
    l.holder.Sender? ==>
      && l.taken != [] && l.holder.frame == l.taken[|l.taken| - 1].msg.Frame()
      && l.holder.sent < |l.holder.frame|
      && (l.holder.sent > 0 ==> !l.s.isSentPending)
  }

  /** While nothing is broken: wire, deque and the frame in hand make up the frames taken, and
      the pending flag, the deque and the EPOLLOUT interest agree. */
  ghost predicate Conserved(l: Link) {
    l.s.Ok() && l.s.Stream() + InHand(l) == TakenStream(l)
  }

  ghost predicate Inv(l: Link) {
    && HandOk(l)
    && (!l.broken ==> Conserved(l))
    && l.s.wire <= TakenStream(l)
  }

  lemma TakenLast(es: seq<Entry>, e: Entry)
    ensures Frames(Messages(es + [e])) == Frames(Messages(es)) + e.msg.Frame()
  {
    MessagesLast(es, e);
    FramesAppend(Messages(es), [e.msg]);
    OneFrame(e.msg);
  }

  lemma StreamIsPrefix(l: Link)
    requires Conserved(l)
    ensures l.s.wire <= TakenStream(l)
  {
    ThreeParts(l.s.wire, Concat(l.s.pending), InHand(l));
  }

  lemma ThreeParts(a: seq<Byte>, b: seq<Byte>, c: seq<Byte>)
    ensures a <= a + b + c
  {
  }

  lemma TakenBack(l: Link)
    requires l.taken != []
    ensures TakenStream(l) == TakenStream(Refuse(l)) + l.taken[|l.taken| - 1].msg.Frame()
  {
    var last := l.taken[|l.taken| - 1];
    assert l.taken == Refuse(l).taken + [last];
    TakenLast(Refuse(l).taken, last);
  }

  /** Refusing a message none of which has gone out takes it back from the stream. */
  lemma RefuseInv(l: Link)
    requires Inv(l) && !l.broken && l.holder.Sender? && l.holder.sent == 0
    ensures Inv(Refuse(l))
  {
    TakenBack(l);
    assert InHand(l) == l.holder.frame;
    SameWithoutTail(l.s.Stream(), TakenStream(Refuse(l)), l.holder.frame);
    NothingInHand(Refuse(l));
  }

  lemma SameWithoutTail(a: seq<Byte>, b: seq<Byte>, tail: seq<Byte>)
    requires a + tail == b + tail
    ensures a == b
  {
    assert a == (a + tail)[..|a|];
    assert b == (b + tail)[..|b|];
  }

  lemma NothingInHand(l: Link)
    requires l.s.Ok() && l.s.Stream() == TakenStream(l) && !l.holder.Sender?
    ensures Inv(l)
  {
    assert l.s.Stream() + [] == l.s.Stream();
    StreamIsPrefix(l);
  }

  lemma LockSendInv(l: Link, tid: nat, msg: Message)
    requires Inv(l) && !l.broken && l.holder == NoOne
    ensures Inv(Step(l, LockSend(tid, msg)))
  {
    var m := Step(l, LockSend(tid, msg));
    TakenLast(l.taken, Entry(tid, msg));
    assert InHand(m) == msg.Frame();
    assert l.s.Stream() + [] == l.s.Stream();
    StreamIsPrefix(m);
  }

  lemma EnqueueInv(l: Link, epollOk: bool)
    requires Inv(l) && !l.broken && l.holder.Sender? && l.s.isSentPending
    ensures Inv(SendStep(l, WouldBlock, epollOk))
  {
    var m := SendStep(l, WouldBlock, epollOk);
    EnqueueConserves(l.s, l.holder.frame, epollOk);
    assert l.holder.frame[0..] == l.holder.frame;
    if epollOk {
      NothingInHand(m);
    } else {
      RefuseInv(l);
    }
  }

  lemma WriteInv(l: Link, result: SockResult, epollOk: bool)
    requires Inv(l) && !l.broken && l.holder.Sender? && !l.s.isSentPending
    ensures Inv(SendStep(l, result, epollOk)) && l.s.wire <= SendStep(l, result, epollOk).s.wire
  {
    var h, m := l.holder, SendStep(l, result, epollOk);
    var w := WriteOnce(l.s, h.frame, h.sent, result, epollOk);
    WriteOnceConserves(l.s, h.frame, h.sent, result, epollOk);
    match w.status {
      case Continues =>
        StreamIsPrefix(m);
      case Returns(true) =>
        NothingInHand(m);
      case Returns(false) =>
        if h.sent == 0 { RefuseInv(l); }
    }
  }

  lemma SendStepInv(l: Link, result: SockResult, epollOk: bool)
    requires Inv(l) && !l.broken && l.holder.Sender?
    ensures Inv(SendStep(l, result, epollOk)) && l.s.wire <= SendStep(l, result, epollOk).s.wire
  {
    if l.s.isSentPending { EnqueueInv(l, epollOk); } else { WriteInv(l, result, epollOk); }
  }

  lemma DrainStepInv(l: Link, result: SockResult, epollOk: bool)
    requires Inv(l) && !l.broken && l.holder.Drainer?
    ensures Inv(DrainStep(l, result, epollOk))
    ensures l.s.wire <= DrainStep(l, result, epollOk).s.wire
  {
    if l.s.pending != [] {
      DrainOnceConserves(l.s, result, epollOk);
      var t := DrainOnce(l.s, result, epollOk).0;
      assert t.Stream() + [] == t.Stream();
      assert l.s.Stream() + [] == l.s.Stream();
    }
  }

  lemma StepInv(l: Link, a: Action)
    requires Inv(l)
    ensures Inv(Step(l, a)) && l.s.wire <= Step(l, a).s.wire
  {
    if !l.broken {
      match a {
        case LockSend(tid, msg) =>
          if l.holder == NoOne { LockSendInv(l, tid, msg); }
        case StepSend(tid, result, epollOk) =>
          if l.holder.Sender? && l.holder.tid == tid { SendStepInv(l, result, epollOk); }
        case LockDrain(_) =>
        case StepDrain(tid, result, epollOk) =>
          if l.holder == Drainer(tid) { DrainStepInv(l, result, epollOk); }
      }
    }
  }

  lemma {:induction false} RunInv(l: Link, actions: seq<Action>)
    requires Inv(l)
    ensures Inv(Run(l, actions)) && l.s.wire <= Run(l, actions).s.wire
    decreases |actions|
  {
    if actions != [] {
      StepInv(l, actions[0]);
      RunInv(Step(l, actions[0]), actions[1..]);
    }
  }

  /** The only ways the list of taken messages changes. */
  lemma TakenChanges(l: Link, a: Action)
    ensures var m := Step(l, a);
            || m.taken == l.taken || m.taken == DropLast(l.taken)
            || (a.LockSend? && m.taken == l.taken + [Entry(a.tid, a.msg)])
  {
  }

  lemma StartInv()
    ensures Inv(START)
  {
  }

  // ------------------------------------------------------------- over all runs

  /** Over every interleaving: wire, deque and the frame in hand are the frames taken in lock
      order, until a call breaks the connection; the wire never holds anything else. */
  lemma SendConservation(actions: seq<Action>)
    ensures var l := Run(START, actions);
            && (!l.broken ==> l.s.wire + Concat(l.s.pending) + InHand(l) == TakenStream(l))
            && l.s.wire <= TakenStream(l)
  {
    StartInv();
    RunInv(START, actions);
  }

  /** Over every interleaving: a sender is never left waiting for an EPOLLOUT that is not armed,
      and EPOLLOUT is never armed without something to send. */
  lemma NoLostWakeUp(actions: seq<Action>)
    ensures var l := Run(START, actions);
            !l.broken ==> (l.s.isSentPending <==> l.s.pending != [])
                          && (l.s.isSentPending <==> l.s.wantOut)
  {
    StartInv();
    RunInv(START, actions);
  }

  /** Where the k-th taken frame begins on the wire. */
  ghost function Offset(l: Link, k: nat): nat
    requires k <= |l.taken|
  {
    |Frames(Messages(l.taken)[..k])|
  }

  lemma OneFrame(m: Message)
    ensures Frames([m]) == m.Frame()
  {
    assert [m][1..] == [];
    assert Frames([m]) == m.Frame() + Frames([]);
  }

  lemma FrameInStream(ms: seq<Message>, k: nat)
    requires k < |ms|
    ensures var off := |Frames(ms[..k])|;
            var end := off + |ms[k].Frame()|;
            && end <= |Frames(ms)| && Frames(ms)[off..end] == ms[k].Frame()
            && end == |Frames(ms[..k + 1])|
  {
    var m, rest := ms[k], ms[k + 1..];
    assert ms[..k + 1] == ms[..k] + [m];
    assert ms == ms[..k + 1] + rest;
    FramesAppend(ms[..k + 1], rest);
    FramesAppend(ms[..k], [m]);
    OneFrame(m);
    Middle(Frames(ms[..k]), m.Frame(), Frames(rest));
  }

  lemma Middle(a: seq<Byte>, b: seq<Byte>, c: seq<Byte>)
    ensures (a + b + c)[|a|..|a| + |b|] == b
  {
  }

  /** Over every interleaving, whichever thread a frame comes from and whoever finishes sending
      it: it begins where the one before it ends, and the wire there holds this frame alone, as
      far as it has been sent. */
  lemma FrameAtomicity(actions: seq<Action>, k: nat)
    requires k < |Run(START, actions).taken|
    ensures var l := Run(START, actions);
            var frame := l.taken[k].msg.Frame();
            var off := Offset(l, k);
            && Offset(l, k + 1) == off + |frame|
            && (forall i :: 0 <= i < |frame| && off + i < |l.s.wire| ==> l.s.wire[off + i] == frame[i])
            && |l.s.wire| <= Offset(l, |l.taken|)
  {
    var l := Run(START, actions);
    var ms := Messages(l.taken);
    SendConservation(actions);
    FrameInStream(ms, k);
    assert ms[..|l.taken|] == ms;
    SliceOfPrefix(l.s.wire, Frames(ms), Offset(l, k), ms[k].Frame());
  }

  lemma SliceOfPrefix(wire: seq<Byte>, whole: seq<Byte>, off: nat, frame: seq<Byte>)
    requires wire <= whole && off + |frame| <= |whole| && whole[off..off + |frame|] == frame
    ensures forall i :: 0 <= i < |frame| && off + i < |wire| ==> wire[off + i] == frame[i]
  {
    forall i | 0 <= i < |frame| && off + i < |wire| ensures wire[off + i] == frame[i] {
      assert whole[off..off + |frame|][i] == whole[off + i];
    }
  }

  // ----------------------------------------------- the methods are runs of this machine

  /** The steps one thread takes in a `SendData` call. */
  function CallSteps(tid: nat, os: seq<SockResult>, epollOk: bool): seq<Action> {
    [StepSend(tid, Head(os), epollOk)] + (if os == [] then [] else CallSteps(tid, os[1..], epollOk))
  }

  /** Steps left over once the call has returned do nothing. */
  lemma {:induction false} LeftoverSteps(l: Link, tid: nat, os: seq<SockResult>, epollOk: bool)
    requires l.holder == NoOne
    ensures Run(l, CallSteps(tid, os, epollOk)) == l
    decreases |os|
  {
    var steps := CallSteps(tid, os, epollOk);
    assert Step(l, steps[0]) == l;
    if os != [] {
      assert steps[1..] == CallSteps(tid, os[1..], epollOk);
      LeftoverSteps(l, tid, os[1..], epollOk);
    }
  }

  /** Where a `SendData` call that ended in `w` leaves a link whose last message is the one sent:
      a failure breaks the connection if part of the frame had gone out, or else takes the message
      back. */
  function Sent(l: Link, w: Written): Link {
    if w.status == Returns(true) then l.(s := w.state, holder := NoOne)
    else if w.sent > 0 then l.(s := w.state, holder := NoOne, broken := true)
    else Refuse(l.(s := w.state))
  }

  lemma {:induction false} WriteAllIsRun(l: Link, os: seq<SockResult>, epollOk: bool)
    requires !l.broken && l.holder.Sender? && l.holder.sent < |l.holder.frame| && !l.s.isSentPending
    ensures var w := WriteAll(l.s, l.holder.frame, l.holder.sent, os, epollOk);
            Run(l, CallSteps(l.holder.tid, os, epollOk)) == Sent(l, w)
    decreases |os|
  {
    var steps := CallSteps(l.holder.tid, os, epollOk);
    var m := Step(l, steps[0]);
    var w := WriteOnce(l.s, l.holder.frame, l.holder.sent, Head(os), epollOk);
    if os == [] {
      assert steps[1..] == [];
    } else {
      assert steps[1..] == CallSteps(l.holder.tid, os[1..], epollOk);
      if w.status.Continues? {
        WriteAllIsRun(m, os[1..], epollOk);
      } else {
        LeftoverSteps(m, l.holder.tid, os[1..], epollOk);
      }
    }
  }

  /** A whole `SendData` call is a run: taking the lock, then this thread's rounds. Its message is
      taken unless the call fails with nothing sent, and the connection breaks exactly when it fails
      with part of the frame sent. */
  lemma SendCallIsRun(l: Link, tid: nat, msg: Message, os: seq<SockResult>, epollOk: bool)
    requires !l.broken && l.holder == NoOne
    ensures var w := SendCall(l.s, msg.Frame(), os, epollOk);
            var failed := w.status != Returns(true);
            var taken := if failed && w.sent == 0 then l.taken else l.taken + [Entry(tid, msg)];
            Run(l, [LockSend(tid, msg)] + CallSteps(tid, os, epollOk))
            == Link(w.state, NoOne, taken, failed && w.sent > 0)
  {
    var steps := CallSteps(tid, os, epollOk);
    var run := [LockSend(tid, msg)] + steps;
    var m := Step(l, run[0]);
    assert run[1..] == steps;
    assert DropLast(m.taken) == l.taken;
    if l.s.isSentPending {
      var n := Step(m, steps[0]);
      assert Run(m, steps) == Run(n, steps[1..]);
      if os == [] {
        assert steps[1..] == [];
      } else {
        assert steps[1..] == CallSteps(tid, os[1..], epollOk);
        LeftoverSteps(n, tid, os[1..], epollOk);
      }
    } else {
      WriteAllIsRun(m, os, epollOk);
    }
  }

  /** The steps of a `SendPendingData` call that already has the lock. */
  function DrainSteps(tid: nat, os: seq<SockResult>, epollOk: bool): seq<Action> {
    [StepDrain(tid, Head(os), epollOk)] + (if os == [] then [] else DrainSteps(tid, os[1..], epollOk))
  }

  lemma {:induction false} LeftoverDrainSteps(l: Link, tid: nat, os: seq<SockResult>, epollOk: bool)
    requires l.holder == NoOne
    ensures Run(l, DrainSteps(tid, os, epollOk)) == l
    decreases |os|
  {
    var steps := DrainSteps(tid, os, epollOk);
    assert Step(l, steps[0]) == l;
    if os != [] {
      assert steps[1..] == DrainSteps(tid, os[1..], epollOk);
      LeftoverDrainSteps(l, tid, os[1..], epollOk);
    }
  }

  /** A whole `SendPendingData` call is a run, breaking the connection exactly when it fails. */
  lemma {:induction false} DrainCallIsRun(l: Link, tid: nat, os: seq<SockResult>, epollOk: bool)
    requires !l.broken && l.holder == Drainer(tid)
    ensures var (t, ok) := DrainCall(l.s, os, epollOk);
            Run(l, DrainSteps(tid, os, epollOk)) == Link(t, NoOne, l.taken, !ok)
    decreases |os|
  {
    var steps := DrainSteps(tid, os, epollOk);
    var m := Step(l, steps[0]);
    if os == [] {
      assert steps[1..] == [];
    } else {
      assert steps[1..] == DrainSteps(tid, os[1..], epollOk);
      if m.holder == NoOne {
        LeftoverDrainSteps(m, tid, os[1..], epollOk);
      } else {
        DrainCallIsRun(m, tid, os[1..], epollOk);
      }
    }
  }
}
