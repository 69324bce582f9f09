/** Runs of the Linux server, told by the events alone: what each event did is its `EventOutcome`. */
module ServerRuns {
  import opened Header
  import opened Framing
  import opened Receive
  import opened RawReceive
  import opened Send
  import opened NixBases
  import opened Servers

  /** An event, and the states before and after it. */
  datatype Happening = Happening(before: Pool, event: Event, after: Pool, outcome: Outcome)

  ghost predicate Happens(h: Happening) {
    && h.before.Ok() && h.after.Ok() && Reportable(h.before, h.event)
    && EventOutcome(h.before, h.event, h.after, h.outcome)
  }

  /** The state that a run from `s` ends in. */
  function End(s: Pool, run: seq<Happening>): Pool { if run == [] then s else run[|run| - 1].after }

  predicate Stopped(run: seq<Happening>) { run != [] && run[|run| - 1].outcome.Stops? }

  /** `h` happens in the state that the run from `s` has left, unless that has stopped. */
  ghost predicate ComesNext(s: Pool, run: seq<Happening>, h: Happening) {
    !Stopped(run) && h.before == End(s, run) && Happens(h)
  }

  ghost predicate IsRun(s: Pool, run: seq<Happening>) {
    run != [] ==> IsRun(s, run[..|run| - 1]) && ComesNext(s, run[..|run| - 1], run[|run| - 1])
  }

  /** The events of the batch have happened one after the other: all of them, unless one stopped the loop. */
  ghost predicate TookBatch(run: seq<Happening>, batch: seq<Event>) {
    && |run| <= |batch| && (forall i :: 0 <= i < |run| ==> run[i].event == batch[i])
    && (|run| < |batch| ==> Stopped(run))
  }

  /** Batch by batch, each as the kernel can report it at that point. */
  ghost predicate Took(s: Pool, run: seq<Happening>, batches: seq<seq<Event>>)
    decreases |batches|
  {
    if batches == [] then run == []
    else
      var batch := Reported(s, batches[0]);
      var k := if |run| < |batch| then |run| else |batch|;
      TookBatch(run[..k], batch)
      && if Stopped(run[..k]) then k == |run| else Took(End(s, run[..k]), run[k..], batches[1..])
  }

  // ---------------------------------------------------------------- the loop is a run

  lemma OneHappens(s: Pool, e: Event) returns (h: Happening)
    requires s.Ok() && Reportable(s, e)
    ensures Happens(h) && h.before == s && h.event == e && (h.after, h.outcome) == Handled(s, e)
  {
    var t, outcome := HandledOutcome(s, e);
    h := Happening(s, e, t, outcome);
  }

  lemma StopShows(run: seq<Happening>, rest: seq<Happening>)
    ensures Stopped(run + rest) == if rest == [] then Stopped(run) else Stopped(rest)
  {
    if rest == [] { assert run + rest == run; }
  }

  lemma EndOfTwo(s: Pool, run: seq<Happening>, rest: seq<Happening>)
    ensures End(s, run + rest) == End(End(s, run), rest)
  {
    if rest == [] { assert run + rest == run; }
  }

  lemma OneLater(s: Pool, run: seq<Happening>, h: Happening)
    requires IsRun(s, run) && ComesNext(s, run, h)
    ensures IsRun(s, run + [h])
  {
    assert (run + [h])[..|run|] == run;
  }

  lemma ComesLater(s: Pool, run: seq<Happening>, sooner: seq<Happening>, h: Happening)
    requires !Stopped(run) && ComesNext(End(s, run), sooner, h)
    ensures ComesNext(s, run + sooner, h)
  {
    EndOfTwo(s, run, sooner);
    StopShows(run, sooner);
  }

  lemma LastApart(run: seq<Happening>, rest: seq<Happening>) returns (sooner: seq<Happening>, h: Happening)
    requires rest != []
    ensures sooner == rest[..|rest| - 1] && h == rest[|rest| - 1] && run + rest == (run + sooner) + [h]
  {
    sooner, h := rest[..|rest| - 1], rest[|rest| - 1];
  }

  /** A run goes on with another. */
  lemma {:induction false} RunsOn(s: Pool, run: seq<Happening>, rest: seq<Happening>)
    requires IsRun(s, run) && !Stopped(run) && IsRun(End(s, run), rest)
    ensures IsRun(s, run + rest)
    decreases |rest|
  {
    if rest == [] {
      assert run + rest == run;
    } else {
      var sooner, h := LastApart(run, rest);
      RunsOn(s, run, sooner);
      ComesLater(s, run, sooner, h);
      OneLater(s, run + sooner, h);
    }
  }

  lemma OneIsRun(h: Happening)
    requires Happens(h)
    ensures IsRun(h.before, [h]) && End(h.before, [h]) == h.after && Stopped([h]) == h.outcome.Stops?
  {
    assert [h][..0] == [];
  }

  lemma {:induction false} BatchIsRun(s: Pool, batch: seq<Event>) returns (run: seq<Happening>)
    requires s.Ok() && BatchOk(s, batch)
    ensures IsRun(s, run) && TookBatch(run, batch)
    ensures HandledAll(s, batch) == (End(s, run), if Stopped(run) then Stops else Goes)
    decreases |batch|
  {
    run := [];
    if batch != [] {
      var h := OneHappens(s, batch[0]);
      OneIsRun(h);
      run := [h];
      if h.outcome.Goes? {
        RestReportable(s, batch);
        var rest := BatchIsRun(h.after, batch[1..]);
        RunsOn(s, [h], rest);
        EndOfTwo(s, [h], rest);
        StopShows([h], rest);
        run := [h] + rest;
      }
    }
  }

  lemma TookMore(s: Pool, run: seq<Happening>, rest: seq<Happening>, batches: seq<seq<Event>>)
    requires batches != [] && TookBatch(run, Reported(s, batches[0])) && !Stopped(run)
    requires Took(End(s, run), rest, batches[1..])
    ensures Took(s, run + rest, batches)
  {
    assert (run + rest)[..|run|] == run && (run + rest)[|run|..] == rest;
  }

  lemma TookLast(s: Pool, run: seq<Happening>, batches: seq<seq<Event>>)
    requires batches != [] && TookBatch(run, Reported(s, batches[0])) && Stopped(run)
    ensures Took(s, run, batches)
  {
    assert run[..|run|] == run;
  }

  /** The loop handles every event that the kernel reports, in that order, until one stops it, and each
      has the outcome that the event alone says. */
  lemma {:induction false} LoopIsRun(s: Pool, batches: seq<seq<Event>>) returns (run: seq<Happening>)
    requires s.Ok()
    ensures IsRun(s, run) && Took(s, run, batches) && Loop(s, batches).0 == End(s, run)
    decreases |batches|
  {
    run := [];
    if batches != [] {
      run := BatchIsRun(s, Reported(s, batches[0]));
      if Stopped(run) {
        TookLast(s, run, batches);
      } else {
        var rest := LoopIsRun(End(s, run), batches[1..]);
        TookMore(s, run, rest, batches);
        RunsOn(s, run, rest);
        EndOfTwo(s, run, rest);
        run := run + rest;
      }
    }
  }

  // ------------------------------------------------- what an event does to one live client

  /** The client at `p` has just been accepted, or is as it was. */
  ghost predicate Untouched(s: Pool, t: Pool, p: nat) {
    t.Live(p) && if s.Live(p) then t.heap[p] == s.heap[p] else t.heap[p].got == [] && t.heap[p].send == FreshSend()
  }

  /** A client that is live after an event: only its own input changes its receive half, and only its
      own output and the sends to it its send half. */
  ghost predicate ClientAfter(s: Pool, e: Event, t: Pool, p: nat)
    requires Reportable(s, e)
  {
    if e.Client? && e.p == p then
      && t.Live(p) && e.what != Hangup
      && (e.what.Readable? ==> t.heap[p].got == s.heap[p].got + BytesOf(e.what.ev) && t.heap[p].send == s.heap[p].send)
      && (e.what.Writable? ==>
            t.heap[p] == s.heap[p].(send := DrainLeaves(s.heap[p].send, Telling(e.what.os), e.what.epollOk)))
    else if e.Sending? && e.p == p && s.Live(p) then
      t.Live(p)
      && t.heap[p] == s.heap[p].(send := SendLeaves(s.heap[p].send, e.msg.Frame(), e.os, e.epollOk))
    else Untouched(s, t, p)
  }

  lemma AcceptTouches(s: Pool, fds: seq<int>, t: Pool, p: nat)
    requires s.Ok() && HasAccepted(s, fds, t) && t.Live(p)
    ensures Untouched(s, t, p)
  {
    var fd := t.heap[p].socket;
    if !s.Live(p) && fd !in fds {
      assert fd in s.live && s.Live(s.live[fd]);
    }
  }

  lemma GoneTouches(s: Pool, t: Pool, q: nat, p: nat)
    requires s.Live(q) && Gone(s, t, q) && t.Live(p)
    ensures q != p && Untouched(s, t, p)
  {
  }

  lemma GoingOnTouches(s: Pool, t: Pool, q: nat, c: ContextValue, p: nat)
    requires s.Live(q) && GoesOnAs(s, t, q, c) && t.Live(p)
    ensures if p == q then t.heap[p] == c else Untouched(s, t, p)
  {
  }

  lemma ReadTouches(s: Pool, q: nat, ev: RecvEvent, w: Wild, t: Pool, p: nat)
    requires Reportable(s, Client(q, Readable(ev, w))) && ReadOutcome(s, q, ev, w, t) && t.Live(p)
    ensures ClientAfter(s, Client(q, Readable(ev, w)), t, p)
  {
    if Gone(s, t, q) {
      GoneTouches(s, t, q, p);
    } else {
      GoingOnTouches(s, t, q, t.heap[q], p);
    }
  }

  lemma DrainTouches(s: Pool, q: nat, os: seq<SockResult>, epollOk: bool, t: Pool, outcome: Outcome, p: nat)
    requires s.Live(q) && t.Live(p) && EventOutcome(s, Client(q, Writable(os, epollOk)), t, outcome)
    ensures ClientAfter(s, Client(q, Writable(os, epollOk)), t, p)
  {
    if Gone(s, t, q) {
      GoneTouches(s, t, q, p);
    } else {
      GoingOnTouches(s, t, q, s.heap[q].(send := DrainLeaves(s.heap[q].send, Telling(os), epollOk)), p);
    }
  }

  lemma EventTouches(s: Pool, e: Event, t: Pool, outcome: Outcome, p: nat)
    requires s.Ok() && Reportable(s, e) && EventOutcome(s, e, t, outcome) && t.Live(p)
    ensures ClientAfter(s, e, t, p)
  {
    match e {
      case Listening(results) => AcceptTouches(s, TakenFds(Usable(results, s.live.Keys)), t, p);
      case Client(q, Hangup) => GoneTouches(s, t, q, p);
      case Client(q, Readable(ev, w)) => ReadTouches(s, q, ev, w, t, p);
      case Client(q, Writable(os, epollOk)) => DrainTouches(s, q, os, epollOk, t, outcome, p);
      case Sending(q, msg, os, epollOk) =>
        if s.Live(q) {
          GoingOnTouches(s, t, q, s.heap[q].(send := SendLeaves(s.heap[q].send, msg.Frame(), os, epollOk)), p);
        }
    }
  }

  // ----------------------------------------------------------- what a client has been heard

  /** The bytes that an event brings from the client at `p`. */
  function Brought(e: Event, p: nat): seq<Byte> {
    if e.Client? && e.p == p && e.what.Readable? then BytesOf(e.what.ev) else []
  }

  /** The bytes that the events of a run have brought from the client at `p` since it was accepted. */
  function Heard(run: seq<Happening>, p: nat): seq<Byte> {
    if run == [] || !run[|run| - 1].after.Live(p) then []
    else Heard(run[..|run| - 1], p) + Brought(run[|run| - 1].event, p)
  }

  /** What is held for a client; a context that serves none has heard nothing. */
  function Got(s: Pool, p: nat): seq<Byte> { if s.Live(p) then s.heap[p].got else [] }

  lemma GotOneMore(s: Pool, e: Event, t: Pool, p: nat)
    requires Reportable(s, e) && ClientAfter(s, e, t, p)
    ensures Got(t, p) == Got(s, p) + Brought(e, p)
  {
  }

  /** On every run, what is held for a live client is what the events brought from it, in that order,
      since it was accepted. */
  lemma {:induction false} GotIsHeard(capacity: nat, run: seq<Happening>, p: nat)
    requires IsRun(NoClients(capacity), run)
    ensures Got(End(NoClients(capacity), run), p) == Heard(run, p)
    decreases |run|
  {
    if run != [] {
      var n := |run| - 1;
      GotIsHeard(capacity, run[..n], p);
      if run[n].after.Live(p) {
        EventTouches(run[n].before, run[n].event, run[n].after, run[n].outcome, p);
        GotOneMore(run[n].before, run[n].event, run[n].after, p);
      }
    }
  }

  /** On every run: if what the events brought from a live client since it was accepted is frames of the
      messages `ms`, as far as they have come, and does not break the client's buffer, then its receive
      half is sound and has delivered a prefix of their payloads, and all of them when all has come. */
  lemma ClientInOrder(capacity: nat, run: seq<Happening>, p: nat, ms: seq<Message>)
    requires IsRun(NoClients(capacity), run) && End(NoClients(capacity), run).Live(p) && AllPrintable(ms)
    requires Heard(run, p) <= Frames(ms)
    requires !BreaksBy(End(NoClients(capacity), run).heap[p].start, 0, ms, |Heard(run, p)|)
    ensures var c := End(NoClients(capacity), run).heap[p];
            && !c.wild && c.recv.raw.Sound() && c.recv.raw.delivered <= Payloads(ms)
            && (Heard(run, p) == Frames(ms) ==> c.recv.raw.delivered == Payloads(ms))
  {
    var s := End(NoClients(capacity), run);
    var c := s.heap[p];
    GotIsHeard(capacity, run, p);
    LiveIsNotCached(s, p);
    SizesBreak(c.start, 0, ms, c.got);
    SplitPrefix(ms, c.got);
    ReachedDelivers(c.recv, c.start, c.got, ms);
  }

  // ----------------------------------------------------------- what a client has been told

  /** What a send adds to a client's stream: its frame if it returns true, and otherwise what the socket
      had room for. */
  function Put(s: SendState, frame: seq<Byte>, os: seq<SockResult>, epollOk: bool): seq<Byte> {
    if SendReturns(s, frame, os, epollOk) then frame
    else if s.isSentPending then []
    else frame[..Min(Offered(os), |frame|)]
  }

  lemma SendPuts(s: SendState, frame: seq<Byte>, os: seq<SockResult>, epollOk: bool)
    requires s.Ok() && frame != []
    ensures SendLeaves(s, frame, os, epollOk).Stream() == s.Stream() + Put(s, frame, os, epollOk)
  {
    SendCallOutcome(s, frame, os, epollOk);
    SendCallConserves(s, frame, os, epollOk);
  }

  lemma DrainPuts(s: SendState, os: seq<SockResult>, epollOk: bool)
    requires s.Ok()
    ensures DrainLeaves(s, Telling(os), epollOk).Stream() == s.Stream()
  {
    DrainCallOutcome(s, os, epollOk);
    DrainCallConserves(s, os, epollOk);
  }

  function Given(s: Pool, e: Event, p: nat): seq<Byte> {
    if e.Sending? && e.p == p && s.Live(p) then Put(s.heap[p].send, e.msg.Frame(), e.os, e.epollOk) else []
  }

  /** What the sends of a run have added for the client at `p` since it was accepted. */
  function Told(run: seq<Happening>, p: nat): seq<Byte> {
    if run == [] || !run[|run| - 1].after.Live(p) then []
    else Told(run[..|run| - 1], p) + Given(run[|run| - 1].before, run[|run| - 1].event, p)
  }

  /** A client's wire and deque; a context that serves none has neither. */
  ghost function StreamTo(s: Pool, p: nat): seq<Byte> { if s.Live(p) then s.heap[p].send.Stream() else [] }

  lemma ToldOneMore(s: Pool, e: Event, t: Pool, p: nat)
    requires s.Ok() && Reportable(s, e) && ClientAfter(s, e, t, p)
    ensures StreamTo(t, p) == StreamTo(s, p) + Given(s, e, p)
  {
    LiveIsNotCached(s, p);
    if e.Client? && e.p == p && e.what.Writable? {
      DrainPuts(s.heap[p].send, e.what.os, e.what.epollOk);
    } else if e.Sending? && e.p == p && s.Live(p) {
      SendPuts(s.heap[p].send, e.msg.Frame(), e.os, e.epollOk);
    }
  }

  /** On every run, a live client's wire followed by its deque is what the sends added since it was
      accepted, in that order: the frames of those that returned true, and what went out of the others.
      Drains, however partial, blocked or interrupted, take nothing from it and add nothing. */
  lemma {:induction false} StreamIsTold(capacity: nat, run: seq<Happening>, p: nat)
    requires IsRun(NoClients(capacity), run)
    ensures StreamTo(End(NoClients(capacity), run), p) == Told(run, p)
    decreases |run|
  {
    if run != [] {
      var n := |run| - 1;
      StreamIsTold(capacity, run[..n], p);
      if run[n].after.Live(p) {
        EventTouches(run[n].before, run[n].event, run[n].after, run[n].outcome, p);
        ToldOneMore(run[n].before, run[n].event, run[n].after, p);
      }
    }
  }
}
