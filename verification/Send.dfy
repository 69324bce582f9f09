/** The framed send over a stream socket: single `send` results, whole calls, and the lock. */
module Send {
  import opened Header
  import opened Framing

  /** What one `send` call meets: room for `n` bytes, or one of the error returns. */
  datatype SockResult = Accepts(n: nat) | WouldBlock | Interrupted | Failed

  /** The send half of a context, with the bytes the kernel has accepted and the EPOLLOUT interest. */
  datatype SendState = SendState(wire: seq<Byte>, pending: seq<seq<Byte>>, isSentPending: bool,
                                 wantOut: bool)
  {
    /** The pending flag, the deque and the EPOLLOUT interest say the same: no lost wake-up. */
    predicate Ok() {
      && (isSentPending <==> pending != []) && (wantOut <==> isSentPending)
      && forall p :: p in pending ==> p != []
    }

    /** Every byte taken from finished `SendData` calls, in order. */
    ghost function Stream(): seq<Byte> { wire + Concat(pending) }
  }

  function FreshSend(): SendState { SendState([], [], false, false) }

  function Min(a: nat, b: nat): nat { if a < b then a else b }

  // ------------------------------------------------------------- single steps

  datatype Status = Continues | Returns(ok: bool)

  datatype Written = Written(state: SendState, sent: nat, status: Status)

  /** `SendData` while a send is pending: queue the frame, re-arm, undo if arming fails. */
  function Enqueue(s: SendState, frame: seq<Byte>, epollOk: bool): Written {
    if epollOk then Written(s.(pending := s.pending + [frame], wantOut := true), 0, Returns(true))
    else Written(s, 0, Returns(false))
  }

  /** One round of the `SendData` loop, `sent` bytes of the frame being out already. */
  function WriteOnce(s: SendState, frame: seq<Byte>, sent: nat, r: SockResult, epollOk: bool): Written
    requires sent < |frame|
  {
    match r
    case Accepts(n) =>
      var k := sent + Min(n, |frame| - sent);
      Written(s.(wire := s.wire + frame[sent..k]), k,
              if k == |frame| then Returns(true) else Continues)
    case WouldBlock =>
      if epollOk then
        Written(s.(pending := s.pending + [frame[sent..]], isSentPending := true, wantOut := true),
                sent, Returns(true))
      else Written(s, sent, Returns(false))
    case Interrupted => Written(s, sent, Continues)
    case Failed => Written(s, sent, Returns(false))
  }

  /** One round of the `SendPendingData` loop. */
  function DrainOnce(s: SendState, r: SockResult, epollOk: bool): (SendState, Status)
    requires s.pending != []
  {
    var front := s.pending[0];
    match r
    case Accepts(n) =>
      var k := Min(n, |front|);
      var out := s.(wire := s.wire + front[..k]);
      if k == 0 then (s, Continues)
      else if k == |front| then
        if |s.pending| > 1 then (out.(pending := s.pending[1..]), Continues)
        else if epollOk then (out.(pending := [], isSentPending := false, wantOut := false), Returns(true))
        else (out.(pending := [], isSentPending := false), Returns(false))
      else (out.(pending := [front[k..]] + s.pending[1..]), Returns(true))
    case WouldBlock => (s, Returns(true))
    case Interrupted => (s, Continues)
    case Failed => (s, Returns(false))
  }

  // -------------------------------------------------------------- whole calls

  /** The results of the successive `send` calls of one critical section; past the end of the
      list the socket would block. */
  function Head(os: seq<SockResult>): SockResult { if os == [] then WouldBlock else os[0] }

  function WriteAll(s: SendState, frame: seq<Byte>, sent: nat, os: seq<SockResult>, epollOk: bool): Written
    requires sent < |frame|
    ensures WriteAll(s, frame, sent, os, epollOk).status.Returns?
    decreases |os|
  {
    var w := WriteOnce(s, frame, sent, Head(os), epollOk);
    if w.status.Continues? then WriteAll(w.state, frame, w.sent, os[1..], epollOk) else w
  }

  /** What is left of the loop when `sent` bytes are out, possibly all. */
  ghost function WriteRest(s: SendState, frame: seq<Byte>, sent: nat, os: seq<SockResult>,
                           epollOk: bool): Written
    requires sent <= |frame|
  {
    if sent < |frame| then WriteAll(s, frame, sent, os, epollOk) else Written(s, sent, Returns(true))
  }

  /** One round of the loop, the socket having accepted something or been interrupted. */
  lemma WriteRestStep(s: SendState, frame: seq<Byte>, sent: nat, os: seq<SockResult>, epollOk: bool)
    requires sent < |frame| && (Head(os).Accepts? || Head(os).Interrupted?)
    ensures var k := if Head(os).Accepts? then Min(Head(os).n, |frame| - sent) else 0;
            var t := s.(wire := s.wire + frame[sent..][..k]);
            WriteRest(t, frame, sent + k, os[1..], epollOk) == WriteRest(s, frame, sent, os, epollOk)
  {
    var k := if Head(os).Accepts? then Min(Head(os).n, |frame| - sent) else 0;
    assert frame[sent..][..k] == frame[sent..sent + k];
    assert k == 0 ==> s.wire + frame[sent..][..k] == s.wire;
  }

  function SendCall(s: SendState, frame: seq<Byte>, os: seq<SockResult>, epollOk: bool): Written
    requires frame != []
  {
    if s.isSentPending then Enqueue(s, frame, epollOk) else WriteAll(s, frame, 0, os, epollOk)
  }

  function DrainCall(s: SendState, os: seq<SockResult>, epollOk: bool): (SendState, bool)
    decreases |os|
  {
    if s.pending == [] then (s, true)
    else
      var (t, status) := DrainOnce(s, Head(os), epollOk);
      if status.Continues? then DrainCall(t, os[1..], epollOk) else (t, status.ok)
  }

  lemma ConcatLast(a: seq<seq<Byte>>, b: seq<Byte>)
    ensures Concat(a + [b]) == Concat(a) + b
  {
    ConcatAppend(a, [b]);
    assert [b][1..] == [];
    assert Concat([b]) == b + Concat([]);
  }

  lemma MovesOut(s: SendState, frame: seq<Byte>, sent: nat, k: nat)
    requires s.pending == [] && sent <= k <= |frame|
    ensures var t := s.(wire := s.wire + frame[sent..k]);
            && t.Stream() + frame[k..] == s.Stream() + frame[sent..]
            && (k == |frame| ==> t.Stream() == s.Stream() + frame[sent..])
            && (k == sent ==> t == s)
  {
    assert frame[sent..] == frame[sent..k] + frame[k..];
    assert Concat(s.pending) == [];
  }

  /** One write round moves bytes from the frame in hand to the wire or the deque; none is lost,
      repeated or reordered. A round that fails changes nothing. */
  lemma WriteOnceConserves(s: SendState, frame: seq<Byte>, sent: nat, r: SockResult, epollOk: bool)
    requires s.Ok() && !s.isSentPending && sent < |frame|
    ensures var w := WriteOnce(s, frame, sent, r, epollOk);
            && w.state.Ok() && s.wire <= w.state.wire
            && (w.status == Continues ==>
                  && sent <= w.sent < |frame| && w.state == s.(wire := s.wire + frame[sent..w.sent])
                  && w.state.Stream() + frame[w.sent..] == s.Stream() + frame[sent..])
            && (w.status == Returns(true) ==> w.state.Stream() == s.Stream() + frame[sent..])
            && (w.status == Returns(false) ==> w.state == s && w.sent == sent)
            && (w.status == Returns(false) <==> r.Failed? || (r.WouldBlock? && !epollOk))
            && (w.status == Continues <==> r.Interrupted? || (r.Accepts? && r.n < |frame| - sent))
  {
    var w := WriteOnce(s, frame, sent, r, epollOk);
    match r {
      case Accepts(n) => MovesOut(s, frame, sent, w.sent);
      case WouldBlock => ConcatLast(s.pending, frame[sent..]);
      case _ => MovesOut(s, frame, sent, sent);
    }
  }

  lemma EnqueueConserves(s: SendState, frame: seq<Byte>, epollOk: bool)
    requires s.Ok() && s.isSentPending && frame != []
    ensures var w := Enqueue(s, frame, epollOk);
            && w.state.Ok() && w.state.wire == s.wire
            && (w.status == Returns(true) ==> w.state.Stream() == s.Stream() + frame)
            && (w.status == Returns(false) ==> w.state == s)
            && w.status == Returns(epollOk)
  {
    ConcatLast(s.pending, frame);
  }

  /** One drain round moves bytes from the front of the deque to the wire, a partly sent entry
      being replaced by its remainder. Unless it fails, flag, deque and interest keep agreeing. */
  lemma DrainOnceConserves(s: SendState, r: SockResult, epollOk: bool)
    requires s.Ok() && s.pending != []
    ensures var (t, status) := DrainOnce(s, r, epollOk);
            && t.Stream() == s.Stream() && s.wire <= t.wire
            && (status != Returns(false) ==> t.Ok())
            && (status == Returns(false) <==> r.Failed? || (t.pending == [] && !epollOk))
            && (status == Continues <==>
                  r.Interrupted? || r == Accepts(0) || 0 < |t.pending| < |s.pending|)
  {
    assert s.pending[0] in s.pending;
    if r.Accepts? {
      if Min(r.n, |s.pending[0]|) < |s.pending[0]| {
        FrontSplit(s.pending, Min(r.n, |s.pending[0]|));
      } else {
        assert forall p :: p in s.pending[1..] ==> p in s.pending;
      }
    }
  }

  /** Replacing the front entry by its remainder. */
  lemma FrontSplit(pending: seq<seq<Byte>>, k: nat)
    requires pending != [] && k < |pending[0]| && (forall p :: p in pending ==> p != [])
    ensures var left := [pending[0][k..]] + pending[1..];
            && Concat(pending) == pending[0][..k] + Concat(left)
            && (forall p :: p in left ==> p != [])
  {
    var left := [pending[0][k..]] + pending[1..];
    FrontConcat(pending[0], pending[1..], k);
    assert pending == [pending[0]] + pending[1..];
    forall i | 0 <= i < |left| ensures left[i] != [] {
      assert pending[i] in pending;
    }
  }

  lemma FrontConcat(front: seq<Byte>, rest: seq<seq<Byte>>, k: nat)
    requires k < |front|
    ensures Concat([front] + rest) == front[..k] + Concat([front[k..]] + rest)
  {
    assert ([front] + rest)[1..] == rest && ([front[k..]] + rest)[1..] == rest;
    assert front == front[..k] + front[k..];
  }

  /** What a `SendData` loop that starts with `sent` bytes out does to the stream. */
  ghost predicate SendsRest(s: SendState, frame: seq<Byte>, sent: nat, w: Written)
    requires sent <= |frame|
  {
    && w.state.Ok() && w.status.Returns? && s.wire <= w.state.wire
    && (w.status.ok ==> w.state.Stream() == s.Stream() + frame[sent..])
    && (!w.status.ok ==> sent <= w.sent < |frame|
                         && w.state == s.(wire := s.wire + frame[sent..w.sent]))
  }

  lemma SendsFurther(s: SendState, frame: seq<Byte>, sent: nat, mid: Written, w: Written)
    requires sent <= mid.sent <= |frame| && SendsRest(mid.state, frame, mid.sent, w)
    requires mid.state == s.(wire := s.wire + frame[sent..mid.sent])
    requires mid.state.Stream() + frame[mid.sent..] == s.Stream() + frame[sent..]
    ensures SendsRest(s, frame, sent, w)
  {
    if !w.status.ok { JoinSlices(s.wire, frame, sent, mid.sent, w.sent); }
  }

  lemma {:induction false} WriteAllConserves(s: SendState, frame: seq<Byte>, sent: nat,
                                             os: seq<SockResult>, epollOk: bool)
    requires s.Ok() && !s.isSentPending && sent < |frame|
    ensures SendsRest(s, frame, sent, WriteAll(s, frame, sent, os, epollOk))
    decreases |os|
  {
    var w := WriteOnce(s, frame, sent, Head(os), epollOk);
    WriteOnceConserves(s, frame, sent, Head(os), epollOk);
    if w.status.Continues? {
      WriteAllConserves(w.state, frame, w.sent, os[1..], epollOk);
      SendsFurther(s, frame, sent, w, WriteAll(w.state, frame, w.sent, os[1..], epollOk));
    }
  }

  /** A `SendData` that returns true has appended exactly its frame to the stream. One that
      returns false has put a proper prefix of it on the wire, none if a send was pending. */
  lemma SendCallConserves(s: SendState, frame: seq<Byte>, os: seq<SockResult>, epollOk: bool)
    requires s.Ok() && frame != []
    ensures var w := SendCall(s, frame, os, epollOk);
            && w.state.Ok() && w.status == Returns(SendReturns(s, frame, os, epollOk)) && s.wire <= w.state.wire
            && (w.status.ok ==> w.state.Stream() == s.Stream() + frame)
            && (!w.status.ok ==> w.sent < |frame| && w.state == s.(wire := s.wire + frame[..w.sent])
                                 && (s.isSentPending ==> w.sent == 0))
  {
    assert frame[0..] == frame;
    SendCallOutcome(s, frame, os, epollOk);
    if s.isSentPending {
      EnqueueConserves(s, frame, epollOk);
      assert s.wire + frame[..0] == s.wire;
    } else {
      WriteAllConserves(s, frame, 0, os, epollOk);
    }
  }

  lemma {:induction false} DrainCallConserves(s: SendState, os: seq<SockResult>, epollOk: bool)
    requires s.Ok()
    ensures var (t, ok) := DrainCall(s, os, epollOk);
            && t.Stream() == s.Stream() && s.wire <= t.wire && (ok ==> t.Ok())
            && ok == DrainReturns(s.pending, Telling(os), epollOk)
    decreases |os|
  {
    DrainCallOutcome(s, os, epollOk);
    if s.pending != [] {
      DrainOnceConserves(s, Head(os), epollOk);
      var (t, status) := DrainOnce(s, Head(os), epollOk);
      if status.Continues? { DrainCallConserves(t, os[1..], epollOk); }
    }
  }

  // ----------------------------------------- the outcome, from the results of `send` alone

  /** The bytes that the socket has room for before it would block or fails. */
  function Offered(os: seq<SockResult>): nat {
    if os == [] || os[0].WouldBlock? || os[0].Failed? then 0
    else (if os[0].Accepts? then os[0].n else 0) + Offered(os[1..])
  }

  /** It fails before it would block. */
  predicate FailsFirst(os: seq<SockResult>) {
    os != [] && !os[0].WouldBlock? && (os[0].Failed? || FailsFirst(os[1..]))
  }

  /** A send is good if the frame goes out, or what is left can be queued with EPOLLOUT armed. Behind a
      pending send the whole frame is queued. */
  function SendReturns(s: SendState, frame: seq<Byte>, os: seq<SockResult>, epollOk: bool): bool {
    if s.isSentPending then epollOk else Offered(os) >= |frame| || (epollOk && !FailsFirst(os))
  }

  function SendLeaves(s: SendState, frame: seq<Byte>, os: seq<SockResult>, epollOk: bool): SendState {
    if s.isSentPending then
      if epollOk then s.(pending := s.pending + [frame], wantOut := true) else s
    else
      LoopLeaves(s, frame, 0, Min(Offered(os), |frame|), epollOk && !FailsFirst(os))
  }

  /** The frame has gone out from `sent` to `k`; what is left is queued if it `waits`. */
  function LoopLeaves(s: SendState, frame: seq<Byte>, sent: nat, k: nat, waits: bool): SendState
    requires sent <= k <= |frame|
  {
    var out := s.(wire := s.wire + frame[sent..k]);
    if k == |frame| || !waits then out
    else out.(pending := s.pending + [frame[k..]], isSentPending := true, wantOut := true)
  }

  lemma JoinSlices(wire: seq<Byte>, frame: seq<Byte>, i: nat, j: nat, k: nat)
    requires i <= j <= k <= |frame|
    ensures (wire + frame[i..j]) + frame[j..k] == wire + frame[i..k]
  {
    assert frame[i..k] == frame[i..j] + frame[j..k];
  }

  lemma LoopInTwo(s: SendState, frame: seq<Byte>, sent: nat, m: nat, k: nat, waits: bool)
    requires sent <= m <= k <= |frame|
    ensures LoopLeaves(s.(wire := s.wire + frame[sent..m]), frame, m, k, waits)
         == LoopLeaves(s, frame, sent, k, waits)
  {
    JoinSlices(s.wire, frame, sent, m, k);
  }

  /** A loop that starts with `sent` bytes out and ends in `w`. */
  ghost predicate LoopOutcome(s: SendState, frame: seq<Byte>, sent: nat, os: seq<SockResult>, epollOk: bool,
                              w: Written)
    requires sent <= |frame|
  {
    var k := sent + Min(Offered(os), |frame| - sent);
    && w.sent == k && w.status == Returns(k == |frame| || (epollOk && !FailsFirst(os)))
    && w.state == LoopLeaves(s, frame, sent, k, epollOk && !FailsFirst(os))
  }

  lemma LoopGoesOn(s: SendState, frame: seq<Byte>, sent: nat, os: seq<SockResult>, epollOk: bool, m: nat,
                   w: Written)
    requires sent <= m < |frame| && os != [] && m == sent + (if os[0].Accepts? then os[0].n else 0)
    requires os[0].Accepts? || os[0].Interrupted?
    requires LoopOutcome(s.(wire := s.wire + frame[sent..m]), frame, m, os[1..], epollOk, w)
    ensures LoopOutcome(s, frame, sent, os, epollOk, w)
  {
    LoopInTwo(s, frame, sent, m, w.sent, epollOk && !FailsFirst(os));
  }

  lemma LoopEnds(s: SendState, frame: seq<Byte>, sent: nat, os: seq<SockResult>, epollOk: bool)
    requires sent < |frame| && WriteOnce(s, frame, sent, Head(os), epollOk).status.Returns?
    ensures LoopOutcome(s, frame, sent, os, epollOk, WriteOnce(s, frame, sent, Head(os), epollOk))
  {
    assert s.wire + frame[sent..sent] == s.wire;
  }

  lemma {:induction false} WriteAllOutcome(s: SendState, frame: seq<Byte>, sent: nat,
                                           os: seq<SockResult>, epollOk: bool)
    requires sent < |frame|
    ensures LoopOutcome(s, frame, sent, os, epollOk, WriteAll(s, frame, sent, os, epollOk))
    decreases |os|
  {
    var w := WriteOnce(s, frame, sent, Head(os), epollOk);
    if w.status.Continues? {
      assert s.wire + frame[sent..sent] == s.wire;
      WriteAllOutcome(w.state, frame, w.sent, os[1..], epollOk);
      LoopGoesOn(s, frame, sent, os, epollOk, w.sent, WriteAll(s, frame, sent, os, epollOk));
    } else {
      LoopEnds(s, frame, sent, os, epollOk);
    }
  }

  /** What a `SendData` call returns and leaves, for every state and every series of results. */
  lemma SendCallOutcome(s: SendState, frame: seq<Byte>, os: seq<SockResult>, epollOk: bool)
    requires frame != []
    ensures var w := SendCall(s, frame, os, epollOk);
            && w.status == Returns(SendReturns(s, frame, os, epollOk))
            && w.state == SendLeaves(s, frame, os, epollOk)
            && w.sent == (if s.isSentPending then 0 else Min(Offered(os), |frame|))
  {
    if !s.isSentPending { WriteAllOutcome(s, frame, 0, os, epollOk); }
  }

  /** The results that end a round of the drain: an interrupted or empty send is tried again. */
  function Telling(os: seq<SockResult>): seq<SockResult> {
    if os == [] then []
    else (if os[0].Interrupted? || os[0] == Accepts(0) then [] else [os[0]]) + Telling(os[1..])
  }

  /** How many entries of the deque are accepted whole, one result each. */
  function WholeFronts(pending: seq<seq<Byte>>, rs: seq<SockResult>): (j: nat)
    ensures j <= |pending| && j <= |rs|
    ensures j < |pending| && j < |rs| && rs[j].Accepts? ==> rs[j].n < |pending[j]|
  {
    if pending == [] || rs == [] || !rs[0].Accepts? || rs[0].n < |pending[0]| then 0
    else 1 + WholeFronts(pending[1..], rs[1..])
  }

  /** A drain fails if the socket does before it would block or takes an entry in part, or if EPOLLOUT
      cannot be disarmed once the deque is empty. `rs` are the telling results. */
  function DrainReturns(pending: seq<seq<Byte>>, rs: seq<SockResult>, epollOk: bool): bool {
    var j := WholeFronts(pending, rs);
    if pending == [] then true
    else if j == |pending| then epollOk
    else j == |rs| || !rs[j].Failed?
  }

  /** The entries accepted whole are on the wire, and the accepted part of the next one. */
  ghost function DrainedWire(s: SendState, rs: seq<SockResult>): seq<Byte> {
    var j := WholeFronts(s.pending, rs);
    s.wire + Concat(s.pending[..j])
    + (if j < |s.pending| && j < |rs| && rs[j].Accepts? then s.pending[j][..rs[j].n] else [])
  }

  /** The rest is in the deque. */
  function DrainedPending(pending: seq<seq<Byte>>, rs: seq<SockResult>): seq<seq<Byte>> {
    var j := WholeFronts(pending, rs);
    if j < |pending| && j < |rs| && rs[j].Accepts? then [pending[j][rs[j].n..]] + pending[j + 1..]
    else pending[j..]
  }

  ghost function DrainLeaves(s: SendState, rs: seq<SockResult>, epollOk: bool): SendState {
    var left := DrainedPending(s.pending, rs);
    var emptied := s.pending != [] && left == [];
    SendState(DrainedWire(s, rs), left, s.isSentPending && !emptied, s.wantOut && !(emptied && epollOk))
  }

  /** A drain that ends with `t`. */
  ghost predicate DrainOutcome(s: SendState, rs: seq<SockResult>, epollOk: bool, t: SendState, ok: bool) {
    ok == DrainReturns(s.pending, rs, epollOk) && t == DrainLeaves(s, rs, epollOk)
  }

  lemma NoneWhole(s: SendState, rs: seq<SockResult>)
    requires WholeFronts(s.pending, rs) == 0
    ensures s.wire + Concat(s.pending[..0]) == s.wire && s.wire + [] == s.wire && s.pending[0..] == s.pending
  {
    assert s.pending[..0] == [];
  }

  lemma OneWhole(pending: seq<seq<Byte>>, rs: seq<SockResult>)
    requires pending != [] && rs != [] && rs[0].Accepts? && |pending[0]| <= rs[0].n
    ensures var j := WholeFronts(pending[1..], rs[1..]);
            && WholeFronts(pending, rs) == 1 + j
            && pending[..1 + j][1..] == pending[1..][..j] && pending[1 + j..] == pending[1..][j..]
  {
  }

  /** The whole front entry has gone out, and there are more. */
  lemma DrainsOn(s: SendState, rs: seq<SockResult>, epollOk: bool, t: SendState, ok: bool)
    requires rs != [] && rs[0].Accepts? && |s.pending| > 1 && |s.pending[0]| <= rs[0].n
    requires DrainOutcome(s.(wire := s.wire + s.pending[0], pending := s.pending[1..]), rs[1..], epollOk, t, ok)
    ensures DrainOutcome(s, rs, epollOk, t, ok)
  {
    OneWhole(s.pending, rs);
    WireInTwo(s, rs);
  }

  lemma WireInTwo(s: SendState, rs: seq<SockResult>)
    requires rs != [] && rs[0].Accepts? && s.pending != [] && |s.pending[0]| <= rs[0].n
    ensures DrainedWire(s.(wire := s.wire + s.pending[0], pending := s.pending[1..]), rs[1..]) == DrainedWire(s, rs)
  {
    OneWhole(s.pending, rs);
    var more := Concat(s.pending[1..][..WholeFronts(s.pending[1..], rs[1..])]);
    assert (s.wire + s.pending[0]) + more == s.wire + (s.pending[0] + more);
  }

  /** The last entry has gone out. */
  lemma DrainsDry(s: SendState, r: SockResult, rs: seq<SockResult>, epollOk: bool)
    requires s.isSentPending && rs != [] && rs[0] == r
    requires r.Accepts? && |s.pending| == 1 && 0 < |s.pending[0]| <= r.n
    ensures var (t, status) := DrainOnce(s, r, epollOk);
            DrainOutcome(s, rs, epollOk, t, status == Returns(true)) && status.Returns?
  {
    OneWhole(s.pending, rs);
    WireInTwo(s, rs);
    NoneWhole(s.(wire := s.wire + s.pending[0], pending := []), rs[1..]);
    assert s.pending[0][..|s.pending[0]|] == s.pending[0];
    assert DrainedPending(s.pending, rs) == [];
  }

  /** Part of the front entry has gone out, or the socket would block or fails. */
  lemma DrainsPart(s: SendState, r: SockResult, rs: seq<SockResult>, epollOk: bool)
    requires s.pending != [] && if rs == [] then r.WouldBlock? else rs[0] == r
    requires if r.Accepts? then 0 < r.n < |s.pending[0]| else r.WouldBlock? || r.Failed?
    ensures var (t, status) := DrainOnce(s, r, epollOk);
            DrainOutcome(s, rs, epollOk, t, status == Returns(true)) && status.Returns?
  {
    NoneWhole(s, rs);
  }

  lemma TellingFirst(os: seq<SockResult>)
    requires os != []
    ensures if os[0].Interrupted? || os[0] == Accepts(0) then Telling(os) == Telling(os[1..])
            else Telling(os) != [] && Telling(os)[0] == os[0] && Telling(os)[1..] == Telling(os[1..])
  {
  }

  /** What a `SendPendingData` call returns and leaves, for every deque and every series of results. */
  lemma {:induction false} DrainCallOutcome(s: SendState, os: seq<SockResult>, epollOk: bool)
    requires s.Ok()
    ensures DrainOutcome(s, Telling(os), epollOk, DrainCall(s, os, epollOk).0, DrainCall(s, os, epollOk).1)
    decreases |os|
  {
    if s.pending == [] {
      NoneWhole(s, Telling(os));
    } else {
      var front, r := s.pending[0], Head(os);
      assert front in s.pending;
      if os != [] { TellingFirst(os); }
      if r.Interrupted? || r == Accepts(0) {
        DrainCallOutcome(s, os[1..], epollOk);
      } else if !r.Accepts? || r.n < |front| {
        DrainsPart(s, r, Telling(os), epollOk);
      } else if |s.pending| == 1 {
        DrainsDry(s, r, Telling(os), epollOk);
      } else {
        var t := s.(wire := s.wire + front, pending := s.pending[1..]);
        assert forall p :: p in t.pending ==> p in s.pending;
        assert front[..|front|] == front;
        DrainCallOutcome(t, os[1..], epollOk);
        DrainsOn(s, Telling(os), epollOk, DrainCall(s, os, epollOk).0, DrainCall(s, os, epollOk).1);
      }
    }
  }
}
