/** The Windows server's overlapped sends: the cache of per-send records and their completions. */
module WinSends {
  import opened Header
  import opened Framing
  import opened Sequences

  /** Where a record is: in the cache, in a thread's hands before its `WSASend` or after its
      completion was dequeued, or with the system. */
  datatype Place = Cached | ToIssue(tid: nat) | Landed(tid: nat, bytes: nat, ok: bool) | InFlight

  /** A `PER_IO_DATA` as a send uses it. `wsabuf.buf` points `offset` bytes into the allocation
      that holds `frame`; `acked` is what the system has reported as transferred. */
  datatype IoData = IoData(place: Place, ctx: nat, frame: seq<Byte>, offset: nat, len: nat,
                           totalSendLen: nat, sentLen: nat, acked: seq<Byte>)
  {
    /** `wsabuf` covers exactly the frame bytes from `sentLen` to `totalSendLen`. */
    ghost predicate CoversRest() {
      && totalSendLen == |frame| && sentLen < totalSendLen
      && offset == sentLen && len == totalSendLen - sentLen
    }

    /** What holds of a record, wherever it is. */
    ghost predicate Ok() {
      match place
      case Cached => this == IDLE
      case ToIssue(_) => CoversRest() && acked == frame[..sentLen]
      case InFlight => CoversRest() && acked == frame[..sentLen]
      case Landed(_, bytes, _) => CoversRest() && bytes <= len && acked == frame[..sentLen + bytes]
    }
  }

  /** The record past `bytes` more bytes of its frame. */
  function Moved(d: IoData, bytes: nat): IoData {
    d.(sentLen := d.sentLen + bytes, offset := d.offset + bytes,
       len := if bytes <= d.len then d.len - bytes else 0)
  }

  const IDLE: IoData := IoData(Cached, 0, [], 0, 0, 0, 0, [])

  /** The record as `SendData` fills it. */
  function Filled(tid: nat, ctx: nat, msg: Message): IoData {
    IoData(ToIssue(tid), ctx, msg.Frame(), 0, |msg.payload| + HEADER_SIZE, |msg.payload| + HEADER_SIZE, 0, [])
  }

  // ------------------------------------------------------------------ the cache

  /** All allocated records by address, the cache queue, and the next free address. */
  datatype Ios = Ios(table: map<nat, IoData>, cache: seq<nat>, next: nat) {
    function Added(): Ios { Ios(table[next := IDLE], cache + [next], next + 1) }

    function Built(n: nat): Ios
      decreases n
    {
      if n == 0 then this else Added().Built(n - 1)
    }

    /** The cache as `PopPerIoDataFromCache` finds it, refilled if it was empty. */
    function Stocked(batch: nat): Ios { if cache == [] then Built(batch) else this }

    function Pushed(io: nat): Ios { Ios(table[io := IDLE], cache + [io], next) }
  }

  /** The cache holds exactly the records whose place is there, each once. */
  ghost predicate CacheOk(s: Ios) {
    && Distinct(s.cache)
    && (forall io :: io in s.cache <==> io in s.table && s.table[io].place.Cached?)
  }

  ghost predicate RecordsOk(s: Ios) {
    forall io :: io in s.table ==> io < s.next && s.table[io].Ok()
  }

  ghost predicate StoreOk(s: Ios) { CacheOk(s) && RecordsOk(s) }

  lemma PushedOnce(s: Ios, io: nat)
    requires CacheOk(s) && io in s.table && !s.table[io].place.Cached?
    ensures CacheOk(s.Pushed(io))
  {
    assert forall x :: x in s.Pushed(io).cache <==> x in s.cache || x == io;
  }

  lemma AddedOk(s: Ios)
    requires StoreOk(s)
    ensures StoreOk(s.Added())
  {
    assert forall x :: x in s.Added().cache <==> x in s.cache || x == s.next;
    assert s.next !in s.table;
  }

  lemma {:induction false} BuiltOk(s: Ios, n: nat)
    requires StoreOk(s)
    ensures StoreOk(s.Built(n))
    ensures forall io :: io in s.table ==> io in s.Built(n).table && s.Built(n).table[io] == s.table[io]
    ensures forall io :: io in s.Built(n).table && io !in s.table ==> s.Built(n).table[io] == IDLE
    decreases n
  {
    if n > 0 {
      AddedOk(s);
      BuiltOk(s.Added(), n - 1);
    }
  }

  class IoCache {
    var table: map<nat, IoData>
    var cache: seq<nat>                 // queue_per_io_data_cache_
    var next: nat
    const maxEvent: nat                 // max_event_

    function State(): Ios
      reads this
    {
      Ios(table, cache, next)
    }

    constructor (maxEvent: nat)
      ensures State() == Ios(map[], [], 0) && this.maxEvent == maxEvent
    {
      table, cache, next := map[], [], 0;
      this.maxEvent := maxEvent;
    }

    method BuildPerIoDataCache()
      modifies this
      ensures State() == old(State()).Built(maxEvent * 2)
      ensures |cache| == old(|cache|) + maxEvent * 2 && old(cache) <= cache && next == old(next) + maxEvent * 2
      ensures old(StoreOk(State())) ==> StoreOk(State())
    {
      BuildGrows(State(), maxEvent * 2);
      if StoreOk(State()) { BuiltOk(State(), maxEvent * 2); }
      var i := 0;
      while i < maxEvent * 2
        invariant i <= maxEvent * 2
        invariant State().Built(maxEvent * 2 - i) == old(State()).Built(maxEvent * 2)
      {
        table := table[next := IDLE];
        cache := cache + [next];
        next := next + 1;
        i := i + 1;
      }
    }

    method PopPerIoDataFromCache() returns (io: nat)
      requires maxEvent > 0
      modifies this
      ensures var s := old(State()).Stocked(maxEvent * 2);
              s.cache != [] && io == s.cache[0] && State() == s.(cache := s.cache[1..])
      ensures old(StoreOk(State())) ==>
                io in table && table[io] == IDLE && io !in cache && Distinct(cache)
    {
      if cache == [] {
        BuildGrows(State(), maxEvent * 2);
        BuildPerIoDataCache();
      }
      assert cache[0] in cache;
      io := cache[0];
      cache := cache[1..];
    }

    method PushPerIoDataToCache(io: nat)
      modifies this
      ensures State() == old(State()).Pushed(io)
      ensures cache == old(cache) + [io] && table == old(table)[io := IDLE] && next == old(next)
      ensures old(StoreOk(State()) && io in table && !table[io].place.Cached?) ==> StoreOk(State())
    {
      if StoreOk(State()) && io in table && !table[io].place.Cached? { PushedOnce(State(), io); }
      table := table[io := IDLE];
      cache := cache + [io];
    }
  }

  lemma {:induction false} BuildGrows(s: Ios, n: nat)
    ensures |s.Built(n).cache| == |s.cache| + n && s.cache <= s.Built(n).cache && s.Built(n).next == s.next + n
    decreases n
  {
    if n > 0 { BuildGrows(s.Added(), n - 1); }
  }

  // ------------------------------------------------------------ the interleavings

  /** A record back from a send: its frame, what was transferred of it in all and before the last
      `WSASend`, and, at the call that returned it, `wsabuf.len`, `total_send_len` and the offset of
      the pointer given to `delete[]` within the allocation. */
  datatype Returned = Returned(frame: seq<Byte>, acked: seq<Byte>, before: nat, windowLen: nat,
                               totalLen: nat, freedAt: nat, finished: bool)

  /** `outstanding`: completions the system still owes. `open`: contexts with a valid socket. */
  datatype Win = Win(ios: Ios, outstanding: multiset<nat>, open: set<nat>, returned: seq<Returned>)

  datatype Action =
    | Connect(ctx: nat)
    | Begin(tid: nat, ctx: nat, msg: Message)          // SendData up to WSASend
    | Issue(tid: nat, io: nat, ok: bool)               // its WSASend
    | Dequeue(tid: nat, io: nat, bytes: nat, ok: bool) // GetQueuedCompletionStatus
    // the IO_SEND and failed-completion cases
    | Handle(tid: nat, io: nat, reissueOk: bool, refilled: bool)

  /** The record, as `d`, goes to the system. */
  function ToFlight(w: Win, io: nat, d: IoData): Win {
    w.(ios := w.ios.(table := w.ios.table[io := d.(place := InFlight)]),
       outstanding := w.outstanding + multiset{io})
  }

  /** The record, as `d`, goes back to the cache, its socket being given up if `closes`. */
  function ToCache(w: Win, io: nat, d: IoData, before: nat, finished: bool, closes: bool): Win {
    w.(ios := w.ios.Pushed(io), open := if closes then w.open - {d.ctx} else w.open,
       returned := w.returned + [Returned(d.frame, d.acked, before, d.len, d.totalSendLen, d.offset, finished)])
  }

  /** The record at the front of the cache becomes `d`. */
  function FromCache(w: Win, d: IoData): Win
    requires w.ios.cache != []
  {
    w.(ios := Ios(w.ios.table[w.ios.cache[0] := d], w.ios.cache[1..], w.ios.next))
  }

  /** The system reports the first `bytes` bytes of the window as transferred. */
  function FromFlight(w: Win, tid: nat, io: nat, bytes: nat, ok: bool): Win
    requires io in w.ios.table && io in w.outstanding
    requires w.ios.table[io].offset + bytes <= |w.ios.table[io].frame|
  {
    var d := w.ios.table[io];
    var landed := d.(place := Landed(tid, bytes, ok),
                     acked := d.acked + d.frame[d.offset..d.offset + bytes]);
    w.(ios := w.ios.(table := w.ios.table[io := landed]), outstanding := w.outstanding - multiset{io})
  }

  /** A thread has dequeued a completion. After a failed one the source first returns the record and
      then closes the socket if the record's type is still that of a send. The type has been reset,
      so this happens only if another thread has `refilled` the record in between. */
  function Handled(w: Win, io: nat, reissueOk: bool, refilled: bool): Win
    requires io in w.ios.table && w.ios.table[io].place.Landed?
  {
    var d := w.ios.table[io];
    var bytes := d.place.bytes;
    var before := if bytes <= |d.acked| then |d.acked| - bytes else 0;
    if !d.place.ok then ToCache(w, io, d, before, false, refilled)
    else if d.ctx !in w.open then ToCache(w, io, d, before, false, false)
    else if d.sentLen + bytes < d.totalSendLen then
      if reissueOk then ToFlight(w, io, Moved(d, bytes))
      else ToCache(w, io, Moved(d, bytes), |d.acked|, false, true)
    else ToCache(w, io, d, before, true, false)
  }

  /** Whether an action can happen now. */
  predicate Enabled(w: Win, a: Action, batch: nat) {
    match a
    case Connect(_) => true
    case Begin(_, ctx, _) => ctx in w.open && w.ios.Stocked(batch).cache != []
    case Issue(tid, io, _) => io in w.ios.table && w.ios.table[io].place == ToIssue(tid)
    case Dequeue(_, io, bytes, _) =>
      && io in w.outstanding && io in w.ios.table && bytes <= w.ios.table[io].len
      && w.ios.table[io].offset + bytes <= |w.ios.table[io].frame|
    case Handle(tid, io, _, _) =>
      io in w.ios.table && w.ios.table[io].place.Landed? && w.ios.table[io].place.tid == tid
  }

  /** An action that cannot happen now changes nothing. */
  function Step(w: Win, a: Action, batch: nat): Win {
    if !Enabled(w, a, batch) then w else
      match a
      case Connect(ctx) => w.(open := w.open + {ctx})
      case Begin(tid, ctx, msg) => FromCache(w.(ios := w.ios.Stocked(batch)), Filled(tid, ctx, msg))
      case Issue(_, io, ok) =>
        var d := w.ios.table[io];
        if ok then ToFlight(w, io, d) else ToCache(w, io, d, |d.acked|, false, true)
      case Dequeue(tid, io, bytes, ok) => FromFlight(w, tid, io, bytes, ok)
      case Handle(_, io, reissueOk, refilled) => Handled(w, io, reissueOk, refilled)
  }

  function Run(w: Win, actions: seq<Action>, batch: nat): Win
    decreases |actions|
  {
    if actions == [] then w else Run(Step(w, actions[0], batch), actions[1..], batch)
  }

  const START: Win := Win(Ios(map[], [], 0), multiset{}, {}, [])

  // -------------------------------------------------------------- the invariant

  /** The system owes exactly one completion for each record it has, and none for any other. */
  ghost predicate FlightOk(w: Win) {
    forall io :: w.outstanding[io] ==
                 if io in w.ios.table && w.ios.table[io].place.InFlight? then 1 else 0
  }

  /** Every send reported complete had all its bytes transferred, each once and in order; every
      return freed the pointer past what was transferred before the last `WSASend`. */
  ghost predicate Sound(r: Returned) {
    && r.acked <= r.frame && (r.finished ==> r.acked == r.frame) && r.totalLen == |r.frame|
    && r.freedAt == r.before && r.before + r.windowLen == r.totalLen
  }

  ghost predicate ReturnedOk(w: Win) { forall r :: r in w.returned ==> Sound(r) }

  ghost predicate Inv(w: Win) { StoreOk(w.ios) && FlightOk(w) && ReturnedOk(w) }

  lemma ToFlightInv(w: Win, io: nat, d: IoData)
    requires Inv(w) && io in w.ios.table && d.(place := InFlight).Ok()
    requires !w.ios.table[io].place.Cached? && !w.ios.table[io].place.InFlight?
    ensures Inv(ToFlight(w, io, d))
  {
    MovedRecord(w.ios, io, d.(place := InFlight));
  }

  lemma ToCacheInv(w: Win, io: nat, d: IoData, before: nat, finished: bool, closes: bool)
    requires Inv(w) && io in w.ios.table
    requires !w.ios.table[io].place.Cached? && !w.ios.table[io].place.InFlight?
    requires Sound(Returned(d.frame, d.acked, before, d.len, d.totalSendLen, d.offset, finished))
    ensures Inv(ToCache(w, io, d, before, finished, closes))
  {
    PushedOnce(w.ios, io);
  }

  lemma PoppedOnce(s: Ios, d: IoData)
    requires CacheOk(s) && s.cache != [] && !d.place.Cached?
    ensures CacheOk(Ios(s.table[s.cache[0] := d], s.cache[1..], s.next))
  {
    assert forall x :: x in s.cache <==> x in s.cache[1..] || x == s.cache[0];
  }

  lemma FromCacheInv(w: Win, d: IoData)
    requires Inv(w) && w.ios.cache != [] && d.place.ToIssue? && d.Ok()
    ensures Inv(FromCache(w, d))
  {
    PoppedOnce(w.ios, d);
    assert w.ios.cache[0] in w.ios.cache;
  }

  /** The completion that the system owed has been given. */
  lemma FlightOver(w: Win, v: Win, io: nat)
    requires FlightOk(w) && io in w.outstanding && v.outstanding == w.outstanding - multiset{io}
    requires io in v.ios.table && !v.ios.table[io].place.InFlight?
    requires v.ios.table == w.ios.table[io := v.ios.table[io]]
    ensures FlightOk(v)
  {
  }

  lemma FromFlightInv(w: Win, tid: nat, io: nat, bytes: nat, ok: bool)
    requires Inv(w) && Enabled(w, Dequeue(tid, io, bytes, ok), 0)
    ensures Inv(FromFlight(w, tid, io, bytes, ok))
  {
    var d, v := w.ios.table[io], FromFlight(w, tid, io, bytes, ok);
    assert d.place.InFlight? && d.Ok();
    LandedOk(d, tid, bytes, ok);
    MovedRecord(w.ios, io, v.ios.table[io]);
    FlightOver(w, v, io);
  }

  /** A record changes, outside the cache. */
  lemma MovedRecord(s: Ios, io: nat, d: IoData)
    requires StoreOk(s) && io in s.table && d.Ok()
    requires !s.table[io].place.Cached? && !d.place.Cached?
    ensures StoreOk(s.(table := s.table[io := d]))
  {
  }

  lemma LandedOk(d: IoData, tid: nat, bytes: nat, ok: bool)
    requires d.place.InFlight? && d.Ok() && bytes <= d.len
    ensures d.(place := Landed(tid, bytes, ok),
               acked := d.acked + d.frame[d.offset..d.offset + bytes]).Ok()
  {
    assert d.frame[..d.sentLen] + d.frame[d.sentLen..d.sentLen + bytes] == d.frame[..d.sentLen + bytes];
  }

  /** The record of a partial completion, moved past the bytes transferred. */
  lemma MovedOk(d: IoData)
    requires d.place.Landed? && d.Ok() && d.sentLen + d.place.bytes < d.totalSendLen
    ensures Moved(d, d.place.bytes).(place := InFlight).Ok()
  {
  }

  lemma BuiltInv(w: Win, n: nat)
    requires Inv(w)
    ensures Inv(w.(ios := w.ios.Built(n)))
  {
    BuiltOk(w.ios, n);
  }

  lemma HandledInv(w: Win, io: nat, reissueOk: bool, refilled: bool)
    requires Inv(w) && io in w.ios.table && w.ios.table[io].place.Landed?
    ensures Inv(Handled(w, io, reissueOk, refilled))
  {
    var d := w.ios.table[io];
    var bytes := d.place.bytes;
    assert d.Ok();
    if d.place.ok && d.ctx in w.open && d.sentLen + bytes < d.totalSendLen {
      MovedOk(d);
      if reissueOk {
        ToFlightInv(w, io, Moved(d, bytes));
      } else {
        ToCacheInv(w, io, Moved(d, bytes), |d.acked|, false, true);
      }
    } else {
      var finished := d.place.ok && d.ctx in w.open;
      ToCacheInv(w, io, d, |d.acked| - bytes, finished, !d.place.ok && refilled);
    }
  }

  lemma StepInv(w: Win, a: Action, batch: nat)
    requires Inv(w)
    ensures Inv(Step(w, a, batch))
  {
    if Enabled(w, a, batch) {
      match a {
        case Connect(_) =>
        case Begin(tid, ctx, msg) =>
          BuiltInv(w, batch);
          FromCacheInv(w.(ios := w.ios.Stocked(batch)), Filled(tid, ctx, msg));
        case Issue(_, io, ok) =>
          var d := w.ios.table[io];
          assert d.Ok();
          if ok { ToFlightInv(w, io, d); } else { ToCacheInv(w, io, d, |d.acked|, false, true); }
        case Dequeue(tid, io, bytes, ok) =>
          FromFlightInv(w, tid, io, bytes, ok);
        case Handle(_, io, reissueOk, refilled) =>
          HandledInv(w, io, reissueOk, refilled);
      }
    }
  }

  lemma {:induction false} RunInv(w: Win, actions: seq<Action>, batch: nat)
    requires Inv(w)
    ensures Inv(Run(w, actions, batch))
    decreases |actions|
  {
    if actions != [] {
      StepInv(w, actions[0], batch);
      RunInv(Step(w, actions[0], batch), actions[1..], batch);
    }
  }

  // ------------------------------------ what an action does, from the record and the results

  /** The record at `io` goes to the system as `d`, and one more completion is owed. */
  ghost predicate Flies(w: Win, v: Win, io: nat, d: IoData) {
    && d.place.InFlight? && v.ios == w.ios.(table := w.ios.table[io := d])
    && v.outstanding == w.outstanding + multiset{io} && v.returned == w.returned
  }

  /** The record at `io` is idle again and last in the cache; its send is reported as `finished`, with
      `k` of the bytes of its frame transferred, `before` of them before the last `WSASend`. */
  ghost predicate ComesBack(w: Win, v: Win, io: nat, d: IoData, k: nat, before: nat, finished: bool)
    requires before <= k <= |d.frame|
  {
    && v.ios == Ios(w.ios.table[io := IDLE], w.ios.cache + [io], w.ios.next)
    && v.outstanding == w.outstanding
    && var rest := |d.frame| - before;
       v.returned == w.returned + [Returned(d.frame, d.frame[..k], before, rest, |d.frame|, before, finished)]
  }

  ghost predicate BeginOutcome(w: Win, tid: nat, ctx: nat, msg: Message, v: Win) {
    var frame := msg.Frame();
    && v.open == w.open && v.outstanding == w.outstanding && v.returned == w.returned
    && exists io :: io in v.ios.table
                    && (if w.ios.cache != [] then io == w.ios.cache[0] && v.ios.cache == w.ios.cache[1..]
                        else io !in w.ios.table)
                    && v.ios.table[io] == IoData(ToIssue(tid), ctx, frame, 0, |frame|, |frame|, 0, [])
                    && forall x :: x in w.ios.table && x != io ==> x in v.ios.table && v.ios.table[x] == w.ios.table[x]
  }

  /** A `WSASend` that fails closes its socket. */
  ghost predicate IssueOutcome(w: Win, io: nat, ok: bool, v: Win)
    requires Inv(w) && io in w.ios.table && w.ios.table[io].place.ToIssue?
  {
    var d := w.ios.table[io];
    assert d.Ok();
    if ok then v.open == w.open && Flies(w, v, io, d.(place := InFlight))
    else v.open == w.open - {d.ctx} && ComesBack(w, v, io, d, d.sentLen, d.sentLen, false)
  }

  ghost predicate DequeueOutcome(w: Win, tid: nat, io: nat, bytes: nat, ok: bool, v: Win)
    requires io in w.ios.table
  {
    var d := w.ios.table[io];
    && v.open == w.open && v.returned == w.returned && v.outstanding == w.outstanding - multiset{io}
    && d.sentLen + bytes <= |d.frame|
    && var landed := d.(place := Landed(tid, bytes, ok), acked := d.frame[..d.sentLen + bytes]);
       v.ios == w.ios.(table := w.ios.table[io := landed])
  }

  /** After a completion the socket is closed exactly if the rest cannot be issued again, or the record
      of a failed one has been refilled. The record is in flight again exactly if a good completion on an
      open socket left bytes and they are issued again; otherwise it comes back, finished exactly if a
      good completion on an open socket left none. */
  ghost predicate HandleOutcome(w: Win, io: nat, reissueOk: bool, refilled: bool, v: Win)
    requires Inv(w) && io in w.ios.table && w.ios.table[io].place.Landed?
  {
    var d := w.ios.table[io];
    assert d.Ok();
    var k := d.sentLen + d.place.bytes;
    var good, left := d.place.ok && d.ctx in w.open, k < |d.frame|;
    && v.open == (if (good && left && !reissueOk) || (!d.place.ok && refilled) then w.open - {d.ctx} else w.open)
    && if good && left && reissueOk
       then Flies(w, v, io, d.(place := InFlight, sentLen := k, offset := k, len := |d.frame| - k))
       else ComesBack(w, v, io, d, k, if good && left then k else d.sentLen, good && !left)
  }

  ghost predicate ActionOutcome(w: Win, a: Action, batch: nat, v: Win)
    requires Inv(w) && Enabled(w, a, batch)
  {
    match a
    case Connect(ctx) => v == w.(open := w.open + {ctx})
    case Begin(tid, ctx, msg) => BeginOutcome(w, tid, ctx, msg, v)
    case Issue(_, io, ok) => IssueOutcome(w, io, ok, v)
    case Dequeue(tid, io, bytes, ok) => DequeueOutcome(w, tid, io, bytes, ok, v)
    case Handle(_, io, reissueOk, refilled) => HandleOutcome(w, io, reissueOk, refilled, v)
  }

  lemma BeginsWell(w: Win, tid: nat, ctx: nat, msg: Message, batch: nat)
    requires Inv(w) && Enabled(w, Begin(tid, ctx, msg), batch)
    ensures BeginOutcome(w, tid, ctx, msg, Step(w, Begin(tid, ctx, msg), batch))
  {
    var s := w.ios.Stocked(batch);
    var v := Step(w, Begin(tid, ctx, msg), batch);
    var io := s.cache[0];
    if w.ios.cache == [] {
      BuiltOk(w.ios, batch);
      BuiltFirst(w.ios, batch);
      assert (w.ios.cache + [w.ios.next])[0] == w.ios.next;
    }
    assert v.ios.table[io] == Filled(tid, ctx, msg);
  }

  lemma DequeuesWell(w: Win, tid: nat, io: nat, bytes: nat, ok: bool, batch: nat)
    requires Inv(w) && Enabled(w, Dequeue(tid, io, bytes, ok), batch)
    ensures DequeueOutcome(w, tid, io, bytes, ok, Step(w, Dequeue(tid, io, bytes, ok), batch))
  {
    var d := w.ios.table[io];
    assert d.place.InFlight? && d.Ok();
    assert d.frame[..d.sentLen] + d.frame[d.sentLen..d.sentLen + bytes] == d.frame[..d.sentLen + bytes];
  }

  lemma IssuesWell(w: Win, io: nat, ok: bool)
    requires Inv(w) && io in w.ios.table && w.ios.table[io].place.ToIssue?
    ensures var d := w.ios.table[io];
            IssueOutcome(w, io, ok, if ok then ToFlight(w, io, d) else ToCache(w, io, d, |d.acked|, false, true))
  {
    assert w.ios.table[io].Ok();
  }

  lemma HandlesWell(w: Win, io: nat, reissueOk: bool, refilled: bool)
    requires Inv(w) && io in w.ios.table && w.ios.table[io].place.Landed?
    ensures HandleOutcome(w, io, reissueOk, refilled, Handled(w, io, reissueOk, refilled))
  {
    assert w.ios.table[io].Ok();
  }

  /** In every state in order, every action has the outcome that the record and the results say. */
  lemma StepOutcome(w: Win, a: Action, batch: nat) returns (v: Win)
    requires Inv(w)
    ensures v == Step(w, a, batch) && if Enabled(w, a, batch) then ActionOutcome(w, a, batch, v) else v == w
  {
    v := Step(w, a, batch);
    if Enabled(w, a, batch) {
      match a {
        case Connect(_) =>
        case Begin(tid, ctx, msg) => BeginsWell(w, tid, ctx, msg, batch);
        case Issue(_, io, ok) => IssuesWell(w, io, ok);
        case Dequeue(tid, io, bytes, ok) => DequeuesWell(w, tid, io, bytes, ok, batch);
        case Handle(_, io, reissueOk, refilled) => HandlesWell(w, io, reissueOk, refilled);
      }
    }
  }

  // -------------------------------------------------------------- over all runs

  /** Over every interleaving: an allocated record is in the cache exactly once, or has exactly one
      completion outstanding, or is in the hands of one thread; never two of these. */
  lemma EachRecordOnce(actions: seq<Action>, batch: nat, io: nat)
    ensures var w := Run(START, actions, batch);
            io in w.ios.table ==>
              multiset(w.ios.cache)[io] + w.outstanding[io]
              + (if w.ios.table[io].place.ToIssue? || w.ios.table[io].place.Landed? then 1 else 0) == 1
  {
    var w := Run(START, actions, batch);
    RunInv(START, actions, batch);
    CountDistinct(w.ios.cache, io);
  }

  /** Over every interleaving: `wsabuf` of a record in flight covers exactly the unsent rest of its
      frame, and the bytes before it are those the system has transferred. */
  lemma InFlightCoversRest(actions: seq<Action>, batch: nat, io: nat)
    ensures var w := Run(START, actions, batch);
            io in w.outstanding ==>
              && io in w.ios.table
              && var d := w.ios.table[io];
                 && d.sentLen < d.totalSendLen == |d.frame| == d.offset + d.len
                 && d.frame[d.offset..d.offset + d.len] == d.frame[d.sentLen..d.totalSendLen]
                 && d.acked + d.frame[d.offset..d.offset + d.len] == d.frame
  {
    var w := Run(START, actions, batch);
    RunInv(START, actions, batch);
    if io in w.outstanding {
      var d := w.ios.table[io];
      assert d.Ok();
      assert d.frame[..d.sentLen] + d.frame[d.sentLen..] == d.frame;
    }
  }

  /** Over every interleaving: a send reported complete has had its whole frame transferred. */
  lemma CompletedMeansTransferred(actions: seq<Action>, batch: nat)
    ensures forall r :: r in Run(START, actions, batch).returned && r.finished ==> r.acked == r.frame
  {
    RunInv(START, actions, batch);
  }

  /** Over every interleaving: a record that comes back passes `delete[]` the pointer it got from
      `new[]` exactly when nothing of its frame had been transferred before the last `WSASend`, for a
      partial completion moves `wsabuf.buf` and nothing moves it back. A caller can tell from
      `wsabuf.len`, which is then still `total_send_len`. */
  lemma FreedAtStart(actions: seq<Action>, batch: nat)
    ensures forall r :: r in Run(START, actions, batch).returned ==>
              && (r.freedAt == 0 <==> r.before == 0)
              && (r.freedAt == 0 <==> r.windowLen == r.totalLen)
  {
    RunInv(START, actions, batch);
  }

  /** No call fails, and no completion reports an error. */
  predicate Succeeds(a: Action) {
    match a
    case Issue(_, _, ok) => ok
    case Dequeue(_, _, _, ok) => ok
    case Handle(_, _, reissueOk, _) => reissueOk
    case _ => true
  }

  /** Every record in use has its socket open and no error reported, and every send is finished. */
  ghost predicate AllWell(w: Win) {
    && (forall io :: io in w.ios.table && !w.ios.table[io].place.Cached? ==>
          w.ios.table[io].ctx in w.open && (w.ios.table[io].place.Landed? ==> w.ios.table[io].place.ok))
    && forall r :: r in w.returned ==> r.finished
  }

  /** A record other than `io` is as it was, or idle. */
  ghost predicate OthersAsWere(w: Win, v: Win, io: nat) {
    forall x :: x in v.ios.table && x != io && !v.ios.table[x].place.Cached? ==>
      x in w.ios.table && v.ios.table[x] == w.ios.table[x]
  }

  lemma BeginOthers(w: Win, tid: nat, ctx: nat, msg: Message, batch: nat) returns (io: nat)
    requires Inv(w) && Enabled(w, Begin(tid, ctx, msg), batch)
    ensures var v := Step(w, Begin(tid, ctx, msg), batch);
            OthersAsWere(w, v, io) && io in v.ios.table && v.ios.table[io] == Filled(tid, ctx, msg)
  {
    BuiltOk(w.ios, batch);
    io := w.ios.Stocked(batch).cache[0];
  }

  lemma StaysWell(w: Win, v: Win, io: nat)
    requires AllWell(w) && OthersAsWere(w, v, io) && w.open <= v.open
    requires io in v.ios.table && !v.ios.table[io].place.Cached? ==>
               v.ios.table[io].ctx in v.open && (v.ios.table[io].place.Landed? ==> v.ios.table[io].place.ok)
    requires v.returned == w.returned || exists r: Returned :: r.finished && v.returned == w.returned + [r]
    ensures AllWell(v)
  {
  }

  lemma SucceedingBegin(w: Win, tid: nat, ctx: nat, msg: Message, batch: nat)
    requires Inv(w) && AllWell(w) && Enabled(w, Begin(tid, ctx, msg), batch)
    ensures var v := Step(w, Begin(tid, ctx, msg), batch); AllWell(v) && v.open == w.open
  {
    var v := Step(w, Begin(tid, ctx, msg), batch);
    var io := BeginOthers(w, tid, ctx, msg, batch);
    StaysWell(w, v, io);
  }

  lemma SucceedingIssue(w: Win, io: nat, v: Win)
    requires Inv(w) && AllWell(w) && io in w.ios.table && w.ios.table[io].place.ToIssue?
    requires IssueOutcome(w, io, true, v)
    ensures AllWell(v) && v.open == w.open
  {
    StaysWell(w, v, io);
  }

  lemma SucceedingDequeue(w: Win, tid: nat, io: nat, bytes: nat, v: Win)
    requires Inv(w) && AllWell(w) && io in w.ios.table && w.ios.table[io].place.InFlight?
    requires DequeueOutcome(w, tid, io, bytes, true, v)
    ensures AllWell(v) && v.open == w.open
  {
    StaysWell(w, v, io);
  }

  lemma SucceedingHandle(w: Win, io: nat, refilled: bool, v: Win)
    requires Inv(w) && AllWell(w) && io in w.ios.table && w.ios.table[io].place.Landed?
    requires HandleOutcome(w, io, true, refilled, v)
    ensures AllWell(v) && v.open == w.open
  {
    StaysWell(w, v, io);
  }

  lemma SucceedingStep(w: Win, a: Action, batch: nat)
    requires Inv(w) && AllWell(w) && Succeeds(a)
    ensures var v := Step(w, a, batch); AllWell(v) && v.open == w.open + if a.Connect? then {a.ctx} else {}
  {
    var v := StepOutcome(w, a, batch);
    if Enabled(w, a, batch) {
      match a {
        case Connect(_) =>
        case Begin(tid, ctx, msg) => SucceedingBegin(w, tid, ctx, msg, batch);
        case Issue(_, io, _) => SucceedingIssue(w, io, v);
        case Dequeue(tid, io, bytes, _) => SucceedingDequeue(w, tid, io, bytes, v);
        case Handle(_, io, _, refilled) => SucceedingHandle(w, io, refilled, v);
      }
    }
  }

  lemma {:induction false} SucceedingFrom(w: Win, actions: seq<Action>, batch: nat)
    requires Inv(w) && AllWell(w) && forall a :: a in actions ==> Succeeds(a)
    ensures var v := Run(w, actions, batch);
            AllWell(v) && forall c :: c in v.open <==> c in w.open || Connect(c) in actions
    decreases |actions|
  {
    if actions != [] {
      var a := actions[0];
      StepInv(w, a, batch);
      SucceedingStep(w, a, batch);
      SucceedingFrom(Step(w, a, batch), actions[1..], batch);
      assert actions == [a] + actions[1..];
    }
  }

  /** On every run in which no call and no completion fails, however partial the completions, whatever
      their order and the order of the threads: the open sockets are exactly those connected, and every
      send that comes back has had its whole frame transferred. */
  lemma NothingFails(actions: seq<Action>, batch: nat)
    requires forall a :: a in actions ==> Succeeds(a)
    ensures var w := Run(START, actions, batch);
            && (forall c :: c in w.open <==> Connect(c) in actions)
            && (forall r :: r in w.returned ==> r.finished && r.acked == r.frame)
  {
    RunInv(START, actions, batch);
    SucceedingFrom(START, actions, batch);
  }

  lemma RunOne(w: Win, a: Action, rest: seq<Action>, batch: nat)
    ensures Run(w, [a] + rest, batch) == Run(Step(w, a, batch), rest, batch)
  {
    assert ([a] + rest)[1..] == rest;
  }

  lemma {:induction false} BuiltFirst(s: Ios, n: nat)
    requires n > 0
    ensures s.Built(n).cache != [] && s.Built(n).cache[0] == (s.cache + [s.next])[0]
    decreases n
  {
    if n > 1 { BuiltFirst(s.Added(), n - 1); }
  }

  lemma RunTwo(w: Win, a: Action, b: Action, rest: seq<Action>, batch: nat)
    ensures Run(w, [a, b] + rest, batch) == Run(Step(Step(w, a, batch), b, batch), rest, batch)
  {
    assert ([a, b] + rest)[1..] == [b] + rest;
    assert ([b] + rest)[1..] == rest;
  }

  /** The record is with the system, the only one, and its socket is open. */
  ghost predicate AloneInFlight(w: Win, io: nat) {
    && io in w.ios.table && w.ios.table[io].place == InFlight && w.ios.table[io].Ok()
    && w.ios.table[io].ctx in w.open && w.outstanding == multiset{io}
  }

  /** One byte of several is transferred, and the rest issued again. */
  lemma LandsPartly(w: Win, io: nat, batch: nat)
    requires AloneInFlight(w, io) && w.ios.table[io].sentLen + 1 < w.ios.table[io].totalSendLen
    ensures var d := w.ios.table[io];
            var v := Step(Step(w, Dequeue(2, io, 1, true), batch), Handle(2, io, true, false), batch);
            && AloneInFlight(v, io) && v.returned == w.returned
            && v.ios.table[io].frame == d.frame && v.ios.table[io].sentLen == d.sentLen + 1
  {
    var d := w.ios.table[io];
    var u := Step(w, Dequeue(2, io, 1, true), batch);
    assert u == FromFlight(w, 2, io, 1, true);
    assert d.frame[..d.sentLen] + d.frame[d.sentLen..d.sentLen + 1] == d.frame[..d.sentLen + 1];
    assert Step(u, Handle(2, io, true, false), batch) == Handled(u, io, true, false);
  }

  /** All that is left is transferred. */
  lemma LandsFully(w: Win, io: nat, batch: nat)
    requires AloneInFlight(w, io)
    ensures var d := w.ios.table[io];
            var v := Step(Step(w, Dequeue(2, io, d.len, true), batch), Handle(2, io, true, false), batch);
            v.returned == w.returned + [Returned(d.frame, d.frame, d.sentLen, d.len, |d.frame|, d.offset, true)]
  {
    var d := w.ios.table[io];
    var u := Step(w, Dequeue(2, io, d.len, true), batch);
    assert u == FromFlight(w, 2, io, d.len, true);
    assert d.frame[..d.sentLen] + d.frame[d.sentLen..|d.frame|] == d.frame;
    assert Step(u, Handle(2, io, true, false), batch) == Handled(u, io, true, false);
  }

  lemma FirstSend(msg: Message, batch: nat) returns (w: Win)
    requires batch > 0
    ensures w == Run(START, [Connect(0), Begin(1, 0, msg)] + ([Issue(1, 0, true)] + []), batch)
    ensures AloneInFlight(w, 0) && w.returned == []
    ensures w.ios.table[0].frame == msg.Frame() && w.ios.table[0].sentLen == 0 && w.ios.table[0].ctx == 0
  {
    var w1 := Step(START, Connect(0), batch);
    BuiltFirst(w1.ios, batch);
    var w2 := Step(w1, Begin(1, 0, msg), batch);
    RunTwo(START, Connect(0), Begin(1, 0, msg), [Issue(1, 0, true)] + [], batch);
    RunOne(w2, Issue(1, 0, true), [], batch);
    assert w2.ios.table[0] == Filled(1, 0, msg);
    w := Step(w2, Issue(1, 0, true), batch);
  }

  lemma {:induction false} RunAppend(w: Win, a: seq<Action>, b: seq<Action>, batch: nat)
    ensures Run(w, a + b, batch) == Run(Run(w, a, batch), b, batch)
    decreases |a|
  {
    if a == [] {
      assert a + b == b;
    } else {
      assert (a + b)[1..] == a[1..] + b;
      RunAppend(Step(w, a[0], batch), a[1..], b, batch);
    }
  }

  /** A run that gives `delete[]` another pointer: any frame that is sent in two parts. */
  lemma PartialSendFreesInside(msg: Message, batch: nat)
    requires batch > 0
    ensures exists run, r :: Run(START, run, batch).returned == [r] && r.finished
                             && r.frame == msg.Frame() && r.freedAt == 1
  {
    var start := [Connect(0), Begin(1, 0, msg)] + ([Issue(1, 0, true)] + []);
    var w := FirstSend(msg, batch);
    var a, b := Dequeue(2, 0, 1, true), Handle(2, 0, true, false);
    LandsPartly(w, 0, batch);
    var v := Step(Step(w, a, batch), b, batch);
    var c := Dequeue(2, 0, v.ios.table[0].len, true);
    LandsFully(v, 0, batch);
    RunTwo(v, c, b, [], batch);
    RunTwo(w, a, b, [c, b] + [], batch);
    RunAppend(START, start, [a, b] + ([c, b] + []), batch);
    var end := Run(START, start + ([a, b] + ([c, b] + [])), batch);
    assert end.returned == [end.returned[0]];
  }
}
