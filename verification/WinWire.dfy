/** Several overlapped sends on one Windows socket: what they leave on its byte stream. */
module WinWire {
  import opened Header
  import opened Framing
  import opened Send
  import opened WinSends

  /** A byte on the wire: which send it is from, its place in that send's frame, and the frame. */
  datatype Mark = Mark(send: nat, at: nat, frame: seq<Byte>) {
    function Value(): Byte { if at < |frame| then frame[at] else 0 }

    predicate Ends() { at + 1 == |frame| }
  }

  /** The server with its sends numbered as they begin, and the wire of one socket. `torn`: a send
      part of which went out on that socket has been given up. */
  datatype Wired = Wired(w: Win, begun: nat, number: map<nat, nat>, wire: seq<Mark>, torn: bool)

  /** The bytes that one completion reports as transferred. */
  function Piece(send: nat, from: nat, n: nat, frame: seq<Byte>): (p: seq<Mark>)
    ensures |p| == n
  {
    seq(n, i requires 0 <= i < n => Mark(send, from + i, frame))
  }

  /** Part of the record's frame has been transferred, on the socket of `ctx`. */
  predicate Halfway(d: IoData, ctx: nat) { d.ctx == ctx && 0 < |d.acked| < |d.frame| }

  function NumberOf(x: Wired, io: nat): nat { if io in x.number then x.number[io] else 0 }

  /** A step of the server, seen from the socket of `ctx`. */
  function Next(x: Wired, a: Action, ctx: nat, batch: nat): Wired {
    var v := Step(x.w, a, batch);
    if !Enabled(x.w, a, batch) then x else
      match a
      case Connect(_) => x.(w := v)
      case Begin(_, _, _) =>
        x.(w := v, begun := x.begun + 1, number := x.number[x.w.ios.Stocked(batch).cache[0] := x.begun])
      case Dequeue(_, io, bytes, _) =>
        var d := x.w.ios.table[io];
        if d.ctx != ctx then x.(w := v)
        else x.(w := v, wire := x.wire + Piece(NumberOf(x, io), d.offset, bytes, d.frame))
      case Issue(_, io, _) => x.(w := v, torn := x.torn || GivesUp(x.w, v, io, ctx))
      case Handle(_, io, _, _) => x.(w := v, torn := x.torn || GivesUp(x.w, v, io, ctx))
  }

  predicate GivesUp(w: Win, v: Win, io: nat, ctx: nat)
    requires io in w.ios.table
  {
    Halfway(w.ios.table[io], ctx) && io in v.ios.table && v.ios.table[io].place.Cached?
  }

  function Trace(x: Wired, actions: seq<Action>, ctx: nat, batch: nat): Wired
    decreases |actions|
  {
    if actions == [] then x else Trace(Next(x, actions[0], ctx, batch), actions[1..], ctx, batch)
  }

  const IDLE_WIRE: Wired := Wired(START, 0, map[], [], false)

  // ------------------------------------------------------------------- framing

  /** `m` continues the frame before it, or begins one where the one before it ends. */
  predicate Continues(before: seq<Mark>, m: Mark) {
    && m.at < |m.frame|
    && (if m.at == 0 then before == [] || before[|before| - 1].Ends()
        else before != [] && before[|before| - 1] == m.(at := m.at - 1))
  }

  /** Whole frames follow one another, the last perhaps unfinished. */
  predicate Framed(wire: seq<Mark>) { forall i :: 0 <= i < |wire| ==> Continues(wire[..i], wire[i]) }

  predicate Open(wire: seq<Mark>) { wire != [] && !wire[|wire| - 1].Ends() }

  function Bytes(wire: seq<Mark>): seq<Byte> { seq(|wire|, i requires 0 <= i < |wire| => wire[i].Value()) }

  /** The frames begun on the wire, in order. */
  function Started(wire: seq<Mark>): seq<seq<Byte>> {
    if wire == [] then []
    else
      var m := wire[|wire| - 1];
      Started(wire[..|wire| - 1]) + (if m.at == 0 then [m.frame] else [])
  }

  function Rest(wire: seq<Mark>): seq<Byte> {
    if Open(wire) && wire[|wire| - 1].at < |wire[|wire| - 1].frame|
    then wire[|wire| - 1].frame[wire[|wire| - 1].at + 1..] else []
  }

  lemma FramedPrefix(wire: seq<Mark>, k: nat)
    requires Framed(wire) && k <= |wire|
    ensures Framed(wire[..k])
  {
    forall i | 0 <= i < k ensures Continues(wire[..k][..i], wire[..k][i]) {
      assert wire[..k][..i] == wire[..i];
    }
  }

  lemma BytesLast(before: seq<Mark>, m: Mark)
    ensures Bytes(before + [m]) == Bytes(before) + [m.Value()]
  {
  }

  /** A framed wire holds the frames begun on it, one whole frame after the other, as far as sent. */
  lemma {:induction false} FramedIsFrames(wire: seq<Mark>)
    requires Framed(wire)
    ensures Bytes(wire) + Rest(wire) == Concat(Started(wire))
    decreases |wire|
  {
    if wire != [] {
      var k := |wire| - 1;
      var before, m := wire[..k], wire[k];
      FramedPrefix(wire, k);
      FramedIsFrames(before);
      assert wire == before + [m] && Continues(before, m);
      BytesLast(before, m);
      RestBefore(before, m);
      OneByteMore(Bytes(before), Rest(before), Started(before), m);
    }
  }

  lemma RestBefore(before: seq<Mark>, m: Mark)
    requires Continues(before, m)
    ensures Rest(before) == if m.at == 0 then [] else m.frame[m.at..]
    ensures Rest(before + [m]) == m.frame[m.at + 1..]
  {
    var wire := before + [m];
    assert wire[|wire| - 1] == m;
    assert m.Ends() ==> m.frame[m.at + 1..] == [];
    if m.at > 0 {
      var last := before[|before| - 1];
      assert last == m.(at := m.at - 1) && last.at + 1 == m.at;
    }
  }

  lemma OneByteMore(bytes: seq<Byte>, rest: seq<Byte>, started: seq<seq<Byte>>, m: Mark)
    requires m.at < |m.frame| && bytes + rest == Concat(started)
    requires rest == if m.at == 0 then [] else m.frame[m.at..]
    ensures bytes + [m.Value()] + m.frame[m.at + 1..]
         == Concat(started + (if m.at == 0 then [m.frame] else []))
  {
    assert [m.Value()] + m.frame[m.at + 1..] == m.frame[m.at..];
    assert bytes + [m.Value()] + m.frame[m.at + 1..] == bytes + m.frame[m.at..];
    if m.at == 0 {
      ConcatLast(started, m.frame);
      assert bytes + [] == bytes;
    } else {
      assert started + [] == started;
    }
  }

  // ---------------------------------------------------------- one piece on the wire

  /** What a piece must find for the wire to stay framed. */
  predicate Fits(wire: seq<Mark>, send: nat, from: nat, frame: seq<Byte>) {
    from < |frame| && Continues(wire, Mark(send, from, frame))
  }

  lemma PieceFrames(wire: seq<Mark>, send: nat, from: nat, n: nat, frame: seq<Byte>)
    requires Framed(wire) && n > 0 && from + n <= |frame|
    ensures Framed(wire + Piece(send, from, n, frame)) <==> Fits(wire, send, from, frame)
  {
    var p := Piece(send, from, n, frame);
    var all := wire + p;
    assert all[..|wire|] == wire && all[|wire|] == p[0];
    if Fits(wire, send, from, frame) {
      forall i | 0 <= i < |all| ensures Continues(all[..i], all[i]) {
        if i < |wire| {
          assert all[..i] == wire[..i];
        } else if i > |wire| {
          assert all[..i][i - 1] == p[i - 1 - |wire|];
        }
      }
    }
  }

  lemma UnframedStays(wire: seq<Mark>, more: seq<Mark>)
    requires !Framed(wire)
    ensures !Framed(wire + more)
  {
    assert (wire + more)[..|wire|] == wire;
    if Framed(wire + more) { FramedPrefix(wire + more, |wire|); }
  }

  // -------------------------------------------------------------- the invariant

  /** Records that are not in the cache carry different sends. */
  ghost predicate Numbered(table: map<nat, IoData>, number: map<nat, nat>, begun: nat) {
    && (forall io :: io in table && !table[io].place.Cached? ==> io in number && number[io] < begun)
    && (forall io, other :: io in table && other in table && io != other
                            && !table[io].place.Cached? && !table[other].place.Cached? ==>
          number[io] != number[other])
  }

  /** The last byte transferred for each record that is halfway. */
  ghost function HalfSent(table: map<nat, IoData>, number: map<nat, nat>, ctx: nat): map<nat, Mark> {
    map io | io in table && Halfway(table[io], ctx) ::
      Mark(if io in number then number[io] else 0, |table[io].acked| - 1, table[io].frame)
  }

  ghost function Half(x: Wired, ctx: nat): map<nat, Mark> { HalfSent(x.w.ios.table, x.number, ctx) }

  /** A record that is halfway has its last byte at the end of the wire, and an unfinished frame there
      belongs to such a record or to a send that was given up. */
  ghost predicate EndKnown(half: map<nat, Mark>, wire: seq<Mark>, torn: bool) {
    && (forall io :: io in half ==> wire != [] && wire[|wire| - 1] == half[io])
    && (Open(wire) ==> torn || half != map[])
    && (torn ==> Open(wire) && half == map[])
  }

  ghost predicate Tracks(x: Wired, ctx: nat) {
    && Inv(x.w) && Numbered(x.w.ios.table, x.number, x.begun)
    && (Framed(x.wire) ==> EndKnown(Half(x, ctx), x.wire, x.torn))
  }

  /** No other send on the socket is halfway, nor has one been given up halfway. */
  ghost predicate Clear(x: Wired, io: nat, ctx: nat) {
    !x.torn && forall other :: other in x.w.ios.table && other != io ==> !Halfway(x.w.ios.table[other], ctx)
  }

  lemma ClearHalf(x: Wired, io: nat, ctx: nat)
    ensures Clear(x, io, ctx) <==> !x.torn && forall other :: other in Half(x, ctx) ==> other == io
  {
    assert forall other :: other in Half(x, ctx) <==>
        other in x.w.ios.table && Halfway(x.w.ios.table[other], ctx);
  }

  predicate Transfers(x: Wired, a: Action, ctx: nat, batch: nat) {
    a.Dequeue? && Enabled(x.w, a, batch) && a.bytes > 0 && x.w.ios.table[a.io].ctx == ctx
  }

  lemma HalfOfSend(x: Wired, io: nat, ctx: nat)
    requires Tracks(x, ctx) && io in Half(x, ctx)
    ensures !x.w.ios.table[io].place.Cached?
    ensures Half(x, ctx)[io].send == NumberOf(x, io) && !Half(x, ctx)[io].Ends()
  {
    assert x.w.ios.table[io].Ok();
  }

  /** At most one record is halfway while the wire is framed. */
  lemma OneHalf(x: Wired, io: nat, other: nat, ctx: nat)
    requires Tracks(x, ctx) && Framed(x.wire) && io in Half(x, ctx) && other in Half(x, ctx)
    ensures io == other
  {
    HalfOfSend(x, io, ctx);
    HalfOfSend(x, other, ctx);
  }

  lemma TurnExactly(x: Wired, io: nat, ctx: nat)
    requires Tracks(x, ctx) && Framed(x.wire)
    requires io in x.w.ios.table && x.w.ios.table[io].place.InFlight? && x.w.ios.table[io].ctx == ctx
    ensures var d := x.w.ios.table[io];
            Fits(x.wire, NumberOf(x, io), d.offset, d.frame) <==> Clear(x, io, ctx)
  {
    var d := x.w.ios.table[io];
    assert d.Ok();
    assert io in Half(x, ctx) <==> d.offset > 0;
    ClearHalf(x, io, ctx);
    if other :| other in Half(x, ctx) && other != io {
      HalfOfSend(x, other, ctx);
      assert NumberOf(x, other) != NumberOf(x, io);
    }
  }

  // ------------------------------------------------------------------ one step

  /** What one record's change does to the bytes last transferred. */
  lemma HalfChanged(table: map<nat, IoData>, number: map<nat, nat>, io: nat, d: IoData, ctx: nat)
    ensures var h := HalfSent(table, number, ctx);
            HalfSent(table[io := d], number, ctx)
            == if Halfway(d, ctx)
               then h[io := Mark(if io in number then number[io] else 0, |d.acked| - 1, d.frame)] else h - {io}
  {
  }

  lemma HalfKept(table: map<nat, IoData>, number: map<nat, nat>, io: nat, d: IoData, ctx: nat)
    requires io in table && (Halfway(d, ctx) <==> Halfway(table[io], ctx))
    requires Halfway(d, ctx) ==> d.acked == table[io].acked && d.frame == table[io].frame
    ensures HalfSent(table[io := d], number, ctx) == HalfSent(table, number, ctx)
  {
  }

  lemma NumberedKept(table: map<nat, IoData>, number: map<nat, nat>, begun: nat, io: nat, d: IoData)
    requires Numbered(table, number, begun) && io in table && !table[io].place.Cached?
    ensures Numbered(table[io := d], number, begun)
  {
  }

  /** A step that changes one record, in nothing that the wire is about. */
  lemma OneRecordKept(x: Wired, y: Wired, io: nat, d: IoData, ctx: nat)
    requires Tracks(x, ctx) && Inv(y.w) && y == x.(w := y.w) && io in x.w.ios.table
    requires y.w.ios.table == x.w.ios.table[io := d] && !x.w.ios.table[io].place.Cached?
    requires Halfway(d, ctx) <==> Halfway(x.w.ios.table[io], ctx)
    requires Halfway(d, ctx) ==> d.acked == x.w.ios.table[io].acked && d.frame == x.w.ios.table[io].frame
    ensures Tracks(y, ctx)
  {
    NumberedKept(x.w.ios.table, x.number, x.begun, io, d);
    HalfKept(x.w.ios.table, x.number, io, d, ctx);
  }

  /** A record that is halfway goes back to the cache. */
  lemma GivenUp(x: Wired, y: Wired, io: nat, ctx: nat)
    requires Tracks(x, ctx) && Inv(y.w) && y == x.(w := y.w, torn := true) && io in Half(x, ctx)
    requires y.w.ios.table == x.w.ios.table[io := IDLE]
    ensures Tracks(y, ctx)
  {
    HalfOfSend(x, io, ctx);
    NumberedKept(x.w.ios.table, x.number, x.begun, io, IDLE);
    HalfChanged(x.w.ios.table, x.number, io, IDLE, ctx);
    if Framed(x.wire) {
      forall other | other in Half(x, ctx) ensures other == io { OneHalf(x, io, other, ctx); }
      assert Half(y, ctx) == map[];
    }
  }

  /** A fresh send, in a record from the cache, has transferred nothing. */
  lemma BegunRecord(w: Win, io: nat, d: IoData, number: map<nat, nat>, begun: nat, ctx: nat, batch: nat)
    requires Inv(w) && Numbered(w.ios.table, number, begun)
    requires io in w.ios.Stocked(batch).cache && d.acked == []
    ensures var table := w.ios.Stocked(batch).table[io := d];
            && Numbered(table, number[io := begun], begun + 1)
            && HalfSent(table, number[io := begun], ctx) == HalfSent(w.ios.table, number, ctx)
  {
    BuiltOk(w.ios, batch);
    var stocked := w.ios.Stocked(batch).table;
    assert stocked[io].place.Cached? && StoreOk(w.ios.Stocked(batch));
    NewNumber(w.ios.table, stocked, io, d, number, begun);
    NewHalf(w.ios.table, stocked, io, d, number, begun, ctx);
  }

  /** From `table` to `stocked` only idle records have been added. */
  ghost predicate Restocked(table: map<nat, IoData>, stocked: map<nat, IoData>) {
    && (forall other :: other in table ==> other in stocked && stocked[other] == table[other])
    && (forall other :: other in stocked && other !in table ==> stocked[other] == IDLE)
  }

  lemma NewNumber(table: map<nat, IoData>, stocked: map<nat, IoData>, io: nat, d: IoData,
                  number: map<nat, nat>, begun: nat)
    requires Numbered(table, number, begun) && Restocked(table, stocked)
    requires io in stocked && stocked[io].place.Cached?
    ensures Numbered(stocked[io := d], number[io := begun], begun + 1)
  {
  }

  lemma NewHalf(table: map<nat, IoData>, stocked: map<nat, IoData>, io: nat, d: IoData,
                number: map<nat, nat>, begun: nat, ctx: nat)
    requires Restocked(table, stocked) && io in stocked && stocked[io].acked == [] && d.acked == []
    ensures HalfSent(stocked[io := d], number[io := begun], ctx) == HalfSent(table, number, ctx)
  {
  }

  lemma BeginTracks(x: Wired, tid: nat, c: nat, msg: Message, ctx: nat, batch: nat)
    requires Tracks(x, ctx) && Enabled(x.w, Begin(tid, c, msg), batch)
    ensures Tracks(Next(x, Begin(tid, c, msg), ctx, batch), ctx)
  {
    var io := x.w.ios.Stocked(batch).cache[0];
    StepInv(x.w, Begin(tid, c, msg), batch);
    BegunRecord(x.w, io, Filled(tid, c, msg), x.number, x.begun, ctx, batch);
  }

  /** What `WSASend` or the handling of a completion makes of the record. */
  lemma BackOrOut(x: Wired, a: Action, ctx: nat, batch: nat) returns (d: IoData)
    requires Tracks(x, ctx) && Enabled(x.w, a, batch) && (a.Issue? || a.Handle?)
    ensures Step(x.w, a, batch).ios.table == x.w.ios.table[a.io := d]
    ensures a.io in x.w.ios.table && !x.w.ios.table[a.io].place.Cached?
    ensures d == IDLE || (!d.place.Cached? && d.ctx == x.w.ios.table[a.io].ctx
                          && d.acked == x.w.ios.table[a.io].acked && d.frame == x.w.ios.table[a.io].frame)
  {
    d := Step(x.w, a, batch).ios.table[a.io];
    if a.Handle? { HandledRecord(x.w, a.io, a.reissueOk, a.refilled); }
  }

  lemma HandledRecord(w: Win, io: nat, reissueOk: bool, refilled: bool)
    requires io in w.ios.table && w.ios.table[io].place.Landed?
    ensures var table := Handled(w, io, reissueOk, refilled).ios.table;
            && io in table && table == w.ios.table[io := table[io]]
            && (table[io] == IDLE
                || table[io] == Moved(w.ios.table[io], w.ios.table[io].place.bytes).(place := InFlight))
  {
  }

  lemma BackOrOutTracks(x: Wired, a: Action, ctx: nat, batch: nat)
    requires Tracks(x, ctx) && Enabled(x.w, a, batch) && (a.Issue? || a.Handle?)
    ensures Tracks(Next(x, a, ctx, batch), ctx)
  {
    var y := Next(x, a, ctx, batch);
    StepInv(x.w, a, batch);
    var d := BackOrOut(x, a, ctx, batch);
    if Halfway(x.w.ios.table[a.io], ctx) && d == IDLE {
      GivenUp(x, y, a.io, ctx);
    } else {
      OneRecordKept(x, y, a.io, d, ctx);
    }
  }

  /** The record of a completion, with what it has transferred by then. */
  lemma LandedRecord(w: Win, tid: nat, io: nat, bytes: nat, ok: bool, batch: nat) returns (d: IoData)
    requires Inv(w) && Enabled(w, Dequeue(tid, io, bytes, ok), batch)
    ensures w.ios.table[io].place.InFlight? && |w.ios.table[io].acked| == w.ios.table[io].offset
    ensures Step(w, Dequeue(tid, io, bytes, ok), batch).ios.table == w.ios.table[io := d]
    ensures d.ctx == w.ios.table[io].ctx && d.frame == w.ios.table[io].frame
    ensures |d.acked| == w.ios.table[io].offset + bytes <= |d.frame|
    ensures bytes == 0 ==> d.acked == w.ios.table[io].acked
  {
    assert w.ios.table[io].Ok();
    d := Step(w, Dequeue(tid, io, bytes, ok), batch).ios.table[io];
  }

  /** The wire ends in the bytes of the record that has the turn. */
  lemma InTurn(x: Wired, y: Wired, io: nat, bytes: nat, d: IoData, ctx: nat)
    requires Tracks(x, ctx) && Framed(x.wire) && Clear(x, io, ctx) && bytes > 0
    requires io in x.w.ios.table && !x.w.ios.table[io].place.Cached?
    requires y.w.ios.table == x.w.ios.table[io := d] && Inv(y.w)
    requires d.ctx == ctx && |d.acked| <= |d.frame| && bytes <= |d.acked|
    requires y == x.(w := y.w, wire := x.wire + Piece(NumberOf(x, io), |d.acked| - bytes, bytes, d.frame))
    ensures Tracks(y, ctx)
  {
    ClearHalf(x, io, ctx);
    NumberedKept(x.w.ios.table, x.number, x.begun, io, d);
    HalfChanged(x.w.ios.table, x.number, io, d, ctx);
    assert y.wire[|y.wire| - 1] == Mark(NumberOf(x, io), |d.acked| - 1, d.frame);
    if Halfway(d, ctx) {
      assert io in Half(y, ctx);
    } else {
      assert Half(y, ctx) == map[];
    }
  }

  lemma UnframedTracks(x: Wired, y: Wired, io: nat, d: IoData, ctx: nat)
    requires Tracks(x, ctx) && Inv(y.w) && y == x.(w := y.w, wire := y.wire) && !Framed(y.wire)
    requires io in x.w.ios.table && !x.w.ios.table[io].place.Cached?
    requires y.w.ios.table == x.w.ios.table[io := d]
    ensures Tracks(y, ctx)
  {
    NumberedKept(x.w.ios.table, x.number, x.begun, io, d);
  }

  lemma TransferTracks(x: Wired, tid: nat, io: nat, bytes: nat, ok: bool, ctx: nat, batch: nat)
    requires Tracks(x, ctx) && Transfers(x, Dequeue(tid, io, bytes, ok), ctx, batch)
    ensures var y := Next(x, Dequeue(tid, io, bytes, ok), ctx, batch);
            Tracks(y, ctx) && (Framed(y.wire) <==> Framed(x.wire) && Clear(x, io, ctx))
  {
    var y := Next(x, Dequeue(tid, io, bytes, ok), ctx, batch);
    var c := x.w.ios.table[io];
    var d := LandedRecord(x.w, tid, io, bytes, ok, batch);
    StepInv(x.w, Dequeue(tid, io, bytes, ok), batch);
    if !Framed(x.wire) {
      UnframedStays(x.wire, Piece(NumberOf(x, io), c.offset, bytes, c.frame));
      UnframedTracks(x, y, io, d, ctx);
    } else {
      TurnExactly(x, io, ctx);
      PieceFrames(x.wire, NumberOf(x, io), c.offset, bytes, c.frame);
      if Clear(x, io, ctx) {
        InTurn(x, y, io, bytes, d, ctx);
      } else {
        UnframedTracks(x, y, io, d, ctx);
      }
    }
  }

  lemma QuietTracks(x: Wired, tid: nat, io: nat, bytes: nat, ok: bool, ctx: nat, batch: nat)
    requires Tracks(x, ctx) && Enabled(x.w, Dequeue(tid, io, bytes, ok), batch)
    requires !Transfers(x, Dequeue(tid, io, bytes, ok), ctx, batch)
    ensures var y := Next(x, Dequeue(tid, io, bytes, ok), ctx, batch);
            Tracks(y, ctx) && y.wire == x.wire
  {
    var y := Next(x, Dequeue(tid, io, bytes, ok), ctx, batch);
    var d := LandedRecord(x.w, tid, io, bytes, ok, batch);
    StepInv(x.w, Dequeue(tid, io, bytes, ok), batch);
    assert y.wire == x.wire;
    OneRecordKept(x, y, io, d, ctx);
  }

  lemma StepTracks(x: Wired, a: Action, ctx: nat, batch: nat)
    requires Tracks(x, ctx)
    ensures var y := Next(x, a, ctx, batch);
            && Tracks(y, ctx)
            && (Framed(y.wire) <==> Framed(x.wire) && (Transfers(x, a, ctx, batch) ==> Clear(x, a.io, ctx)))
  {
    if Enabled(x.w, a, batch) {
      match a {
        case Connect(_) =>
        case Begin(tid, c, msg) => BeginTracks(x, tid, c, msg, ctx, batch);
        case Issue(_, _, _) => BackOrOutTracks(x, a, ctx, batch);
        case Handle(_, _, _, _) => BackOrOutTracks(x, a, ctx, batch);
        case Dequeue(tid, io, bytes, ok) =>
          if Transfers(x, a, ctx, batch) {
            TransferTracks(x, tid, io, bytes, ok, ctx, batch);
          } else {
            QuietTracks(x, tid, io, bytes, ok, ctx, batch);
          }
      }
    }
  }

  // ------------------------------------------------------------------- all runs

  /** Bytes are transferred only while no other send of the socket is halfway or given up halfway. */
  ghost predicate Undisturbed(x: Wired, actions: seq<Action>, ctx: nat, batch: nat)
    decreases |actions|
  {
    if actions == [] then true
    else
      && (Transfers(x, actions[0], ctx, batch) ==> Clear(x, actions[0].io, ctx))
      && Undisturbed(Next(x, actions[0], ctx, batch), actions[1..], ctx, batch)
  }

  lemma {:induction false} TraceTracks(x: Wired, actions: seq<Action>, ctx: nat, batch: nat)
    requires Tracks(x, ctx)
    ensures var y := Trace(x, actions, ctx, batch);
            && Tracks(y, ctx)
            && (Framed(y.wire) <==> Framed(x.wire) && Undisturbed(x, actions, ctx, batch))
    decreases |actions|
  {
    if actions != [] {
      StepTracks(x, actions[0], ctx, batch);
      TraceTracks(Next(x, actions[0], ctx, batch), actions[1..], ctx, batch);
    }
  }

  /** Over every interleaving, the frames on a socket's wire stay whole, one after the other, exactly
      when bytes are only ever transferred while no other send of that socket is halfway or given up
      halfway. The bytes are then those of the frames begun, as far as sent. */
  lemma FramedExactly(actions: seq<Action>, ctx: nat, batch: nat)
    ensures var wire := Trace(IDLE_WIRE, actions, ctx, batch).wire;
            && (Framed(wire) <==> Undisturbed(IDLE_WIRE, actions, ctx, batch))
            && (Framed(wire) ==> Bytes(wire) + Rest(wire) == Concat(Started(wire)))
  {
    TraceTracks(IDLE_WIRE, actions, ctx, batch);
    var wire := Trace(IDLE_WIRE, actions, ctx, batch).wire;
    if Framed(wire) { FramedIsFrames(wire); }
  }

  // ----------------------------------------------------- completions of whole windows

  /** Every completion on the socket that reports bytes reports the whole window. */
  ghost predicate WholeWindows(x: Wired, actions: seq<Action>, ctx: nat, batch: nat)
    decreases |actions|
  {
    if actions == [] then true
    else
      var a := actions[0];
      && (Transfers(x, a, ctx, batch) ==> a.bytes == x.w.ios.table[a.io].len)
      && WholeWindows(Next(x, a, ctx, batch), actions[1..], ctx, batch)
  }

  lemma StaysUntouched(x: Wired, a: Action, ctx: nat, batch: nat)
    requires Tracks(x, ctx) && Half(x, ctx) == map[] && !x.torn
    requires Enabled(x.w, a, batch) && (a.Issue? || a.Handle?)
    ensures Half(Next(x, a, ctx, batch), ctx) == map[] && !Next(x, a, ctx, batch).torn
  {
    var d := BackOrOut(x, a, ctx, batch);
    assert a.io !in Half(x, ctx);
    HalfChanged(x.w.ios.table, x.number, a.io, d, ctx);
  }

  lemma NothingHalfway(x: Wired, a: Action, ctx: nat, batch: nat)
    requires Tracks(x, ctx) && Half(x, ctx) == map[] && !x.torn
    requires Transfers(x, a, ctx, batch) ==> a.bytes == x.w.ios.table[a.io].len
    ensures Half(Next(x, a, ctx, batch), ctx) == map[] && !Next(x, a, ctx, batch).torn
  {
    if Enabled(x.w, a, batch) {
      match a {
        case Connect(_) =>
        case Begin(tid, c, msg) =>
          BegunRecord(x.w, x.w.ios.Stocked(batch).cache[0], Filled(tid, c, msg), x.number, x.begun, ctx, batch);
        case Dequeue(tid, io, bytes, ok) =>
          var d := LandedRecord(x.w, tid, io, bytes, ok, batch);
          assert x.w.ios.table[io].Ok() && io !in Half(x, ctx);
          HalfChanged(x.w.ios.table, x.number, io, d, ctx);
        case Issue(_, io, _) => StaysUntouched(x, a, ctx, batch);
        case Handle(_, io, _, _) => StaysUntouched(x, a, ctx, batch);
      }
    }
  }

  lemma {:induction false} WholeIsUndisturbed(x: Wired, actions: seq<Action>, ctx: nat, batch: nat)
    requires Tracks(x, ctx) && Half(x, ctx) == map[] && !x.torn && WholeWindows(x, actions, ctx, batch)
    ensures Undisturbed(x, actions, ctx, batch)
    decreases |actions|
  {
    if actions != [] {
      var a := actions[0];
      if Transfers(x, a, ctx, batch) { ClearHalf(x, a.io, ctx); }
      StepTracks(x, a, ctx, batch);
      NothingHalfway(x, a, ctx, batch);
      WholeIsUndisturbed(Next(x, a, ctx, batch), actions[1..], ctx, batch);
    }
  }

  /** Sends may overlap in any way as long as each completion reports its whole window. */
  lemma WholeWindowsFramed(actions: seq<Action>, ctx: nat, batch: nat)
    requires WholeWindows(IDLE_WIRE, actions, ctx, batch)
    ensures Framed(Trace(IDLE_WIRE, actions, ctx, batch).wire)
  {
    WholeIsUndisturbed(IDLE_WIRE, actions, ctx, batch);
    FramedExactly(actions, ctx, batch);
  }

  // ------------------------------------------------------- a run that tears a frame

  lemma {:induction false} TraceIsRun(x: Wired, actions: seq<Action>, ctx: nat, batch: nat)
    ensures Trace(x, actions, ctx, batch).w == Run(x.w, actions, batch)
    decreases |actions|
  {
    if actions != [] { TraceIsRun(Next(x, actions[0], ctx, batch), actions[1..], ctx, batch); }
  }

  lemma {:induction false} TraceAppend(x: Wired, a: seq<Action>, b: seq<Action>, ctx: nat, batch: nat)
    ensures Trace(x, a + b, ctx, batch) == Trace(Trace(x, a, ctx, batch), b, ctx, batch)
    decreases |a|
  {
    if a == [] {
      assert a + b == b;
    } else {
      assert (a + b)[1..] == a[1..] + b;
      TraceAppend(Next(x, a[0], ctx, batch), a[1..], b, ctx, batch);
    }
  }

  lemma TraceOne(x: Wired, a: Action, ctx: nat, batch: nat)
    ensures Trace(x, [a], ctx, batch) == Next(x, a, ctx, batch)
  {
    assert [a][1..] == [];
  }

  /** The record holds a send of which nothing has been transferred. */
  ghost predicate Holds(x: Wired, io: nat, send: nat, frame: seq<Byte>) {
    && io in x.w.ios.table && !x.w.ios.table[io].place.Cached? && NumberOf(x, io) == send
    && x.w.ios.table[io].ctx == 0 && x.w.ios.table[io].acked == [] && x.w.ios.table[io].frame == frame
  }

  ghost predicate Flying(x: Wired, io: nat, send: nat, frame: seq<Byte>) {
    Holds(x, io, send, frame) && x.w.ios.table[io].place.InFlight?
  }

  /** Another send is begun. */
  lemma BeginsNext(x: Wired, io: nat, send: nat, frame: seq<Byte>, msg: Message, batch: nat) returns (other: nat)
    requires Tracks(x, 0) && Flying(x, io, send, frame) && 0 in x.w.open && batch > 0
    ensures var y := Next(x, Begin(1, 0, msg), 0, batch);
            && Flying(y, io, send, frame) && other != io && Holds(y, other, x.begun, msg.Frame())
            && y.w.ios.table[other].place == ToIssue(1) && y.wire == x.wire
  {
    BuildGrows(x.w.ios, batch);
    BuiltOk(x.w.ios, batch);
    other := x.w.ios.Stocked(batch).cache[0];
    assert other in x.w.ios.Stocked(batch).cache && StoreOk(x.w.ios.Stocked(batch));
  }

  /** And given to the system. */
  lemma IssuesNext(x: Wired, io: nat, other: nat, send: nat, frame: seq<Byte>, send': nat, frame': seq<Byte>,
                   batch: nat)
    requires Flying(x, io, send, frame) && Holds(x, other, send', frame') && other != io
    requires x.w.ios.table[other].place == ToIssue(1)
    ensures var y := Next(x, Issue(1, other, true), 0, batch);
            Flying(y, io, send, frame) && Flying(y, other, send', frame') && y.wire == x.wire
  {
  }

  /** The system transfers the first byte of a send. */
  lemma FirstByte(x: Wired, io: nat, send: nat, frame: seq<Byte>, batch: nat)
    requires Tracks(x, 0) && Flying(x, io, send, frame)
    ensures Next(x, Dequeue(2, io, 1, true), 0, batch).wire == x.wire + [Mark(send, 0, frame)]
  {
    assert x.w.ios.table[io].Ok();
    assert Piece(send, 0, 1, frame) == [Mark(send, 0, frame)];
  }

  lemma OtherFlies(x: Wired, io: nat, other: nat, send: nat, frame: seq<Byte>, batch: nat)
    requires other != io && Flying(x, other, send, frame)
    ensures Flying(Next(x, Dequeue(2, io, 1, true), 0, batch), other, send, frame)
  {
  }

  lemma TraceTwo(x: Wired, a: Action, b: Action, ctx: nat, batch: nat)
    ensures Trace(x, [a, b], ctx, batch) == Next(Next(x, a, ctx, batch), b, ctx, batch)
  {
    assert [a, b][1..] == [b];
    TraceOne(Next(x, a, ctx, batch), b, ctx, batch);
  }

  /** With one send in flight, another joins it. */
  lemma SecondFlies(x: Wired, io: nat, send: nat, frame: seq<Byte>, msg: Message, batch: nat)
      returns (run: seq<Action>, other: nat)
    requires Tracks(x, 0) && Flying(x, io, send, frame) && 0 in x.w.open && batch > 0
    ensures var y := Trace(x, run, 0, batch);
            && Tracks(y, 0) && y.wire == x.wire && other != io
            && Flying(y, io, send, frame) && Flying(y, other, x.begun, msg.Frame())
  {
    other := BeginsNext(x, io, send, frame, msg, batch);
    var a, b := Begin(1, 0, msg), Issue(1, other, true);
    var y := Next(x, a, 0, batch);
    IssuesNext(y, io, other, send, frame, x.begun, msg.Frame(), batch);
    run := [a, b];
    TraceTwo(x, a, b, 0, batch);
    TraceTracks(x, run, 0, batch);
  }

  /** Each of two sends in flight has its first byte transferred. */
  lemma FirstBytes(x: Wired, io: nat, send: nat, frame: seq<Byte>, other: nat, send': nat, frame': seq<Byte>,
                   batch: nat) returns (run: seq<Action>, z: Wired)
    requires Tracks(x, 0) && x.wire == [] && other != io
    requires Flying(x, io, send, frame) && Flying(x, other, send', frame')
    ensures z == Trace(x, run, 0, batch) && z.wire == [Mark(send, 0, frame), Mark(send', 0, frame')]
  {
    var a, b := Dequeue(2, io, 1, true), Dequeue(2, other, 1, true);
    var y := Next(x, a, 0, batch);
    FirstByte(x, io, send, frame, batch);
    OtherFlies(x, io, other, send', frame', batch);
    StepTracks(x, a, 0, batch);
    FirstByte(y, other, send', frame', batch);
    run := [a, b];
    z := Next(y, b, 0, batch);
    TraceTwo(x, a, b, 0, batch);
    assert [] + [Mark(send, 0, frame)] == [Mark(send, 0, frame)];
  }

  lemma FirstFlies(msg: Message, batch: nat) returns (run: seq<Action>)
    requires batch > 0
    ensures var x := Trace(IDLE_WIRE, run, 0, batch);
            && Tracks(x, 0) && Flying(x, 0, 0, msg.Frame()) && 0 in x.w.open && x.wire == [] && x.begun == 1
  {
    var a, b, c := Connect(0), Begin(1, 0, msg), Issue(1, 0, true);
    run := [a, b] + ([c] + []);
    var w := FirstSend(msg, batch);
    assert w.ios.table[0].Ok();
    TraceIsRun(IDLE_WIRE, run, 0, batch);
    TraceTracks(IDLE_WIRE, run, 0, batch);
    FirstNumber(msg, batch);
  }

  /** What the first three steps leave of the numbering and the wire. */
  lemma FirstNumber(msg: Message, batch: nat)
    requires batch > 0
    ensures var x := Trace(IDLE_WIRE, [Connect(0), Begin(1, 0, msg)] + ([Issue(1, 0, true)] + []), 0, batch);
            x.number == map[0 := 0] && x.begun == 1 && x.wire == []
  {
    var a, b, c := Connect(0), Begin(1, 0, msg), Issue(1, 0, true);
    BuiltFirst(Ios(map[], [], 0), batch);
    TraceAppend(IDLE_WIRE, [a, b], [c] + [], 0, batch);
    TraceTwo(IDLE_WIRE, a, b, 0, batch);
    assert [c] + [] == [c];
    TraceOne(Next(Next(IDLE_WIRE, a, 0, batch), b, 0, batch), c, 0, batch);
  }

  lemma NotFramed(m: Mark, n: Mark)
    requires !m.Ends() && n.at == 0
    ensures !Framed([m, n])
  {
    assert [m, n][..1] == [m] && [m][0] == m && !Continues([m], [m, n][1]);
  }

  /** Any two messages sent at once on one socket can tear each other's frames: the first byte of one
      is followed by the first byte of the other. */
  lemma OverlapTears(m1: Message, m2: Message, batch: nat)
    requires batch > 0
    ensures exists run :: Trace(IDLE_WIRE, run, 0, batch).wire == [Mark(0, 0, m1.Frame()), Mark(1, 0, m2.Frame())]
    ensures !Framed([Mark(0, 0, m1.Frame()), Mark(1, 0, m2.Frame())])
  {
    var run := Overlap(m1, m2, batch);
    NotFramed(Mark(0, 0, m1.Frame()), Mark(1, 0, m2.Frame()));
  }

  lemma Overlap(m1: Message, m2: Message, batch: nat) returns (run: seq<Action>)
    requires batch > 0
    ensures Trace(IDLE_WIRE, run, 0, batch).wire == [Mark(0, 0, m1.Frame()), Mark(1, 0, m2.Frame())]
  {
    var start := FirstFlies(m1, batch);
    var x := Trace(IDLE_WIRE, start, 0, batch);
    var more, other := SecondFlies(x, 0, 0, m1.Frame(), m2, batch);
    var last, end := FirstBytes(Trace(x, more, 0, batch), 0, 0, m1.Frame(), other, 1, m2.Frame(), batch);
    TraceAppend(x, more, last, 0, batch);
    TraceAppend(IDLE_WIRE, start, more + last, 0, batch);
    run := start + (more + last);
  }
}
