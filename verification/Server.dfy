/** The Linux server's event loop over its contexts: the live map and the cache of contexts. */
module Servers {
  import opened Header
  import opened Framing
  import opened Cursors
  import opened RawReceive
  import opened Receive
  import opened Send
  import opened NixBases
  import opened Sequences

  /** The value of a context object, with the bytes `got` on its connection so far, and the capacity
      `start` that its receive buffer had when the connection began. `wild`: a receive was lost, at a
      failed assertion or a header of undefined reading, and what it holds since then is anything. */
  datatype ContextValue = ContextValue(socket: int, isConnected: bool, recv: Receiver, wild: bool,
                                       start: nat, got: seq<Byte>, send: SendState)
  {
    /** As a context waits in the cache: nothing received, no cached length, nothing to send. */
    predicate Clean() {
      && socket == -1 && !isConnected && start >= HEADER_SIZE && start == recv.raw.cur.cap
      && recv == Receiver(recv.raw, Runs, false) && recv.raw.Unused() && !wild && got == []
      && send == FreshSend()
    }

    /** The receive half stands where the bytes received put it. */
    ghost predicate RecvOk() {
      && recv.raw.Ok() && recv.raw.cur.cap >= HEADER_SIZE && recv.fate.Runs?
      && if wild then Spoilt(start, got) else Reached(recv, start, got)
    }

    /** As a context serves a client. */
    ghost predicate InUse() { isConnected && RecvOk() && send.Ok() }

    /** The reset of `PushClientContextToCache`; the buffer keeps its capacity and memory. */
    function Recycled(): ContextValue {
      ContextValue(-1, false, Receiver(recv.raw.Reset(), Runs, false), false, recv.raw.cur.cap, [], FreshSend())
    }
  }

  function NewContext(cap: nat): ContextValue {
    ContextValue(-1, false, NewReceiver(cap), false, cap, [], FreshSend())
  }

  /** The allocated contexts by address, the cache queue, the socket map, the client count, the
      next free address and the capacity for new receive buffers. */
  datatype Pool = Pool(heap: map<nat, ContextValue>, cache: seq<nat>, live: map<int, nat>,
                       clientCnt: int, next: nat, maxDataLen: nat)
  {
    function At(p: nat): ContextValue { if p in heap then heap[p] else NewContext(0) }

    predicate Live(p: nat) { p in heap && heap[p].socket in live && live[heap[p].socket] == p }

    ghost predicate CacheOk() {
      Distinct(cache) && forall p :: p in cache ==> p in heap && heap[p].Clean()
    }

    ghost predicate LiveOk() {
      forall fd :: fd in live ==>
        live[fd] in heap && heap[live[fd]].socket == fd && heap[live[fd]].InUse()
    }

    ghost predicate Covered() { forall p :: p in heap ==> p < next && (p in cache || Live(p)) }

    /** Every allocated context is in the cache exactly once and clean, or live and in order; the
        client count is the number of live contexts. */
    ghost predicate Ok() {
      CacheOk() && LiveOk() && Covered() && clientCnt == |live| && maxDataLen >= HEADER_SIZE
    }

    /** `PopClientContextFromCache`. */
    function Popped(): (Pool, nat) {
      if cache != [] then (this.(cache := cache[1..]), cache[0])
      else (this.(heap := heap[next := NewContext(maxDataLen)], next := next + 1), next)
    }

    /** A round of the accept loop: a context serves the new descriptor. */
    function Added(fd: int): Pool {
      var (s, p) := this.(clientCnt := clientCnt + 1).Popped();
      s.(heap := s.heap[p := s.At(p).(socket := fd, isConnected := true)], live := s.live[fd := p])
    }

    /** `PushClientContextToCache`. */
    function Pushed(p: nat): Pool {
      this.(heap := heap[p := At(p).Recycled()], cache := cache + [p], live := live - {At(p).socket})
    }

    /** `TerminateClient`. */
    function Terminated(p: nat): Pool { this.(clientCnt := clientCnt - 1).Pushed(p) }

    /** Growing a context's buffer also sets the capacity for later ones. */
    function WithRecv(p: nat, recv: Receiver, wild: bool, bytes: seq<Byte>): Pool {
      this.(heap := heap[p := At(p).(recv := recv, wild := wild, got := At(p).got + bytes)],
            maxDataLen := CapacityFor(maxDataLen, At(p).recv.raw.cur.cap, recv.raw.cur.cap))
    }

    function WithSend(p: nat, send: SendState): Pool { this.(heap := heap[p := At(p).(send := send)]) }
  }

  function NoClients(bufferCapacity: nat): Pool { Pool(map[], [], map[], 0, 0, bufferCapacity) }

  // ----------------------------------------------------------- what the kernel reports

  datatype AcceptResult = Accepted(fd: int, epollOk: bool) | WouldWait | Aborted | AcceptFailed

  /** What a lost receive, or one on a wild context, happens to do. */
  datatype Wild = Wild(raw: Raw, stays: bool)

  /** The branch an event takes: hang-up before input before output. */
  datatype Readiness =
    | Hangup
    | Readable(ev: RecvEvent, wild: Wild)
    | Writable(os: seq<SockResult>, epollOk: bool)

  /** What the loop handles, and the sends that callbacks and other threads make in between. */
  datatype Event =
    | Listening(results: seq<AcceptResult>)
    | Client(p: nat, what: Readiness)
    | Sending(p: nat, msg: Message, os: seq<SockResult>, epollOk: bool)

  /** Whether the loop returns after an event. */
  datatype Outcome = Goes | Stops

  /** A `recv` brings no more than the window. */
  predicate Readies(c: ContextValue, ev: RecvEvent, w: Wild) {
    && (!c.wild ==> c.recv.raw.Ok() && c.recv.Takes(|BytesOf(ev)|))
    && (ev.Received? ==> ev.bytes != [])
    && w.raw.Ok() && w.raw.cur.cap >= HEADER_SIZE
  }

  predicate Reportable(s: Pool, e: Event) {
    e.Client? ==>
      && s.Live(e.p)
      && (e.what.Readable? && !e.what.ev.PeerClosed? ==> Readies(s.heap[e.p], e.what.ev, e.what.wild))
  }

  /** One batch of `epoll_wait` on Linux, at most one event for a descriptor, with any sends in
      between. */
  predicate BatchOk(s: Pool, batch: seq<Event>) {
    && (forall i :: 0 <= i < |batch| ==> Reportable(s, batch[i]))
    && (forall i, j :: 0 <= i < j < |batch| && batch[i].Client? && batch[j].Client? ==>
          batch[i].p != batch[j].p)
  }

  // ------------------------------------------------------------- the loop on values

  /** The accept loop. A descriptor that is still open is never what `accept` returns. */
  function Accepting(s: Pool, results: seq<AcceptResult>): (Pool, bool)
    decreases |results|
  {
    if results == [] then (s, true)
    else if !results[0].Accepted? || results[0].fd in s.live then (s, !results[0].AcceptFailed?)
    else if !results[0].epollOk then (s.Added(results[0].fd), false)
    else Accepting(s.Added(results[0].fd), results[1..])
  }

  /** `RecvData` on a live client that has not hung up. */
  function Receiving(s: Pool, p: nat, ev: RecvEvent, w: Wild): Pool
    requires Reportable(s, Client(p, Readable(ev, w))) && !ev.PeerClosed?
  {
    var c, bytes := s.heap[p], BytesOf(ev);
    if !c.wild && c.recv.Taking(bytes).fate.Runs? then s.WithRecv(p, c.recv.Taking(bytes), false, bytes)
    else if !c.wild && c.recv.Taking(bytes).fate.Refused? then s.Terminated(p)
    else if w.stays then s.WithRecv(p, Receiver(w.raw, Runs, true), true, bytes)
    else s.Terminated(p)
  }

  /** A send on a context that waits in the cache fails on its descriptor and changes nothing. */
  function Handled(s: Pool, e: Event): (Pool, Outcome)
    requires Reportable(s, e)
  {
    match e
    case Listening(results) =>
      var (t, ok) := Accepting(s, results);
      (t, if ok then Goes else Stops)
    case Client(p, Hangup) => (s.Terminated(p), Goes)
    case Client(p, Readable(ev, wild)) =>
      (if ev.PeerClosed? then s.Terminated(p) else Receiving(s, p, ev, wild), Goes)
    case Client(p, Writable(os, epollOk)) =>
      var (t, ok) := DrainCall(s.heap[p].send, os, epollOk);
      if ok then (s.WithSend(p, t), Goes) else (s.Terminated(p), Stops)
    case Sending(p, msg, os, epollOk) =>
      (if s.Live(p) then s.WithSend(p, SendCall(s.heap[p].send, msg.Frame(), os, epollOk).state) else s, Goes)
  }

  /** One batch keeps the pool in order, as far as it is handled. */
  ghost function HandledAll(s: Pool, batch: seq<Event>): (r: (Pool, Outcome))
    requires s.Ok() && BatchOk(s, batch)
    ensures r.0.Ok()
    decreases |batch|
  {
    if batch == [] then (s, Goes)
    else
      HandledOk(s, batch[0]);
      RestReportable(s, batch);
      var (t, outcome) := Handled(s, batch[0]);
      if outcome == Goes then HandledAll(t, batch[1..]) else (t, outcome)
  }

  /** The pool is in order in every state the event loop can reach. */
  ghost function Loop(s: Pool, batches: seq<seq<Event>>): (r: (Pool, Outcome))
    requires s.Ok()
    ensures r.0.Ok()
    decreases |batches|
  {
    if batches == [] then (s, Stops)
    else
      var (t, outcome) := HandledAll(s, Reported(s, batches[0]));
      if outcome == Goes then Loop(t, batches[1..]) else (t, outcome)
  }

  /** The kernel reports nothing else. */
  function Reported(s: Pool, offered: seq<Event>): (batch: seq<Event>)
    ensures BatchOk(s, batch) && (BatchOk(s, offered) ==> batch == offered)
  {
    if BatchOk(s, offered) then offered else []
  }

  /** From the server's start, whatever batches the kernel reports, whatever is sent in between, and
      whatever lost receives do: each context allocated is live or in the cache and never both,
      the cache has no duplicates and only contexts as good as new, the client count is the number of
      live contexts, each live one has its own descriptor, its send half is sound and its receive half
      stands where the bytes received have put it. */
  lemma PoolInOrder(capacity: nat, batches: seq<seq<Event>>)
    requires capacity >= HEADER_SIZE
    ensures var s := Loop(NoClients(capacity), batches).0;
            && Distinct(s.cache) && s.clientCnt == |s.live|
            && (forall p :: p in s.heap ==> (p in s.cache <==> !s.Live(p)))
            && (forall p :: p in s.cache ==> p in s.heap && s.heap[p].Clean())
            && (forall fd :: fd in s.live ==> s.Live(s.live[fd]) && s.heap[s.live[fd]].socket == fd)
            && (forall p :: s.Live(p) ==> s.heap[p].send.Ok() && s.heap[p].RecvOk())
  {
    var s := Loop(NoClients(capacity), batches).0;
    forall p ensures p in s.cache ==> !s.Live(p)
             ensures s.Live(p) ==> s.heap[p].InUse()
    {
      LiveIsNotCached(s, p);
    }
  }

  // ------------------------------------------------------------ one event keeps order

  /** Clients other than `except` are as live as before, and untouched. */
  ghost predicate OthersKept(s: Pool, t: Pool, except: set<nat>) {
    forall q :: s.Live(q) && q !in except ==> t.Live(q) && t.heap[q] == s.heap[q]
  }

  lemma LiveIsNotCached(s: Pool, p: nat)
    requires s.Ok()
    ensures p in s.cache ==> !s.Live(p)
    ensures s.Live(p) ==> s.heap[p].InUse()
  {
  }

  lemma OneMore(m: map<int, nat>, fd: int, p: nat)
    requires fd !in m
    ensures |m[fd := p]| == |m| + 1
  {
    assert m[fd := p].Keys == m.Keys + {fd};
  }

  lemma OneLess(m: map<int, nat>, fd: int)
    requires fd in m
    ensures |m - {fd}| == |m| - 1
  {
    assert (m - {fd}).Keys == m.Keys - {fd};
  }

  lemma TerminatedCache(s: Pool, p: nat)
    requires s.Ok() && s.Live(p)
    ensures s.Terminated(p).CacheOk()
  {
    LiveIsNotCached(s, p);
    assert forall q :: q in s.Terminated(p).cache ==> q in s.cache || q == p;
  }

  lemma TerminatedLive(s: Pool, p: nat)
    requires s.Ok() && s.Live(p)
    ensures s.Terminated(p).LiveOk() && s.Terminated(p).Covered()
    ensures OthersKept(s, s.Terminated(p), {p})
  {
    var t := s.Terminated(p);
    assert p in t.cache;
    forall q | q in s.heap && q != p ensures q in t.cache || t.Live(q) {
      assert q in s.cache ==> q in t.cache;
    }
  }

  lemma TerminatedTwice(s: Pool, p: nat)
    requires s.Ok() && p in s.cache
    ensures !s.Terminated(p).CacheOk()
  {
    var t := s.Terminated(p);
    var i :| 0 <= i < |s.cache| && s.cache[i] == p;
    assert t.cache[i] == p && t.cache[|s.cache|] == p;
  }

  /** Terminating a client keeps the pool in order exactly when the client is still live: a second
      termination of the same context would put it in the cache twice. */
  lemma TerminateOnce(s: Pool, p: nat)
    requires s.Ok() && p in s.heap
    ensures s.Terminated(p).Ok() <==> s.Live(p)
    ensures s.Live(p) ==> OthersKept(s, s.Terminated(p), {p})
  {
    if s.Live(p) {
      TerminatedCache(s, p);
      TerminatedLive(s, p);
      OneLess(s.live, s.heap[p].socket);
    } else {
      TerminatedTwice(s, p);
    }
  }

  /** A context as the cache or the allocator hands it out is in order once it is connected. */
  lemma CleanServes(v: ContextValue, fd: int)
    requires v.Clean()
    ensures v.(socket := fd, isConnected := true).InUse()
  {
    UnusedReached(v.recv.raw);
  }

  lemma PoppedIsClean(s: Pool)
    requires s.CacheOk() && s.maxDataLen >= HEADER_SIZE
    ensures var (t, p) := s.Popped(); p in t.heap && t.heap[p].Clean()
  {
    assert s.cache != [] ==> s.cache[0] in s.cache;
  }

  /** A context ready for a new client: clean, not in the cache and not live. */
  ghost predicate FreeToServe(t: Pool, p: nat) {
    p in t.heap && t.heap[p].Clean() && p !in t.cache && !t.Live(p)
  }

  lemma PoppedIsFree(s: Pool)
    requires s.Ok()
    ensures var (t, p) := s.Popped(); FreeToServe(t, p) && OthersKept(s, t, {})
  {
    PoppedIsClean(s);
  }

  /** `t` is `s` with context `p`, from the front of the cache or new, serving descriptor `fd`. */
  ghost predicate Adds(s: Pool, t: Pool, p: nat, fd: int) {
    && fd !in s.live && t.next >= s.next && p < t.next
    && (if s.cache != [] then p == s.cache[0] && t.cache == s.cache[1..] && p in s.heap
        else t.cache == [] && p !in s.heap)
    && t.heap.Keys == s.heap.Keys + {p} && (forall q :: q in s.heap && q != p ==> t.heap[q] == s.heap[q])
    && t.heap[p].socket == fd && t.heap[p].InUse()
    && t.live == s.live[fd := p] && t.clientCnt == s.clientCnt + 1 && t.maxDataLen == s.maxDataLen
  }

  lemma AddedServes(s: Pool, fd: int)
    requires s.Ok()
    ensures var p := s.Popped().1;
            && p in s.Added(fd).heap && s.Added(fd).heap[p].socket == fd && s.Added(fd).heap[p].InUse()
  {
    var u := s.(clientCnt := s.clientCnt + 1);
    PoppedIsClean(u);
    CleanServes(u.Popped().0.heap[u.Popped().1], fd);
  }

  lemma AddedFromCache(s: Pool, fd: int)
    requires fd !in s.live && s.cache != [] && s.cache[0] in s.heap && s.cache[0] < s.next
    requires s.Added(fd).heap[s.cache[0]].InUse()
    ensures Adds(s, s.Added(fd), s.cache[0], fd)
  {
  }

  lemma AddedNew(s: Pool, fd: int)
    requires fd !in s.live && s.cache == [] && s.next !in s.heap
    requires s.Added(fd).heap[s.next].InUse()
    ensures Adds(s, s.Added(fd), s.next, fd)
  {
  }

  lemma AddedAdds(s: Pool, fd: int)
    requires s.Ok() && fd !in s.live
    ensures Adds(s, s.Added(fd), s.Popped().1, fd)
  {
    AddedServes(s, fd);
    if s.cache != [] {
      assert s.cache[0] in s.cache;
      AddedFromCache(s, fd);
    } else {
      AddedNew(s, fd);
    }
  }

  lemma AddedOthers(s: Pool, t: Pool, p: nat, fd: int)
    requires s.Ok() && Adds(s, t, p, fd)
    ensures OthersKept(s, t, {})
  {
    LiveIsNotCached(s, p);
    assert !s.Live(p);
  }

  lemma AddedCache(s: Pool, t: Pool, p: nat, fd: int)
    requires s.Ok() && Adds(s, t, p, fd)
    ensures t.CacheOk()
  {
    forall q | q in t.cache ensures q in t.heap && t.heap[q].Clean() {
      assert q in s.cache && q != p;
    }
  }

  lemma AddedLive(s: Pool, t: Pool, p: nat, fd: int)
    requires s.Ok() && Adds(s, t, p, fd)
    ensures t.LiveOk()
  {
    LiveIsNotCached(s, p);
    forall d | d in t.live ensures t.live[d] in t.heap && t.heap[t.live[d]].socket == d && t.heap[t.live[d]].InUse() {
      if d != fd {
        assert t.live[d] == s.live[d] && s.Live(s.live[d]);
      }
    }
  }

  lemma AddedCovered(s: Pool, t: Pool, p: nat, fd: int)
    requires s.Ok() && Adds(s, t, p, fd)
    ensures t.Covered()
  {
    AddedOthers(s, t, p, fd);
    forall q | q in t.heap ensures q < t.next && (q in t.cache || t.Live(q)) {
      if q != p {
        assert q in s.cache || s.Live(q);
      }
    }
  }

  /** A new client leaves the pool in order and every other client untouched. */
  lemma AddedOk(s: Pool, fd: int)
    requires s.Ok() && fd !in s.live
    ensures s.Added(fd).Ok() && OthersKept(s, s.Added(fd), {})
  {
    var t, p := s.Added(fd), s.Popped().1;
    AddedAdds(s, fd);
    AddedOthers(s, t, p, fd);
    AddedCache(s, t, p, fd);
    AddedLive(s, t, p, fd);
    AddedCovered(s, t, p, fd);
    OneMore(s.live, fd, p);
  }

  lemma AcceptingNext(s: Pool, results: seq<AcceptResult>, i: nat)
    requires i < |results| && results[i].Accepted? && results[i].fd !in s.live
    ensures var t := s.Added(results[i].fd);
            Accepting(s, results[i..]) == if results[i].epollOk then Accepting(t, results[i + 1..]) else (t, false)
  {
    assert results[i..][1..] == results[i + 1..];
  }

  lemma {:induction false} AcceptingOk(s: Pool, results: seq<AcceptResult>)
    requires s.Ok()
    ensures var t := Accepting(s, results).0; t.Ok() && OthersKept(s, t, {})
    decreases |results|
  {
    if results != [] && results[0].Accepted? && results[0].fd !in s.live {
      AddedOk(s, results[0].fd);
      AcceptingOk(s.Added(results[0].fd), results[1..]);
    }
  }

  /** A live client's own receive or send state changes, and stays in order. */
  lemma ClientChanged(s: Pool, t: Pool, p: nat)
    requires s.Ok() && s.Live(p) && t == s.(heap := t.heap, maxDataLen := t.maxDataLen)
    requires t.heap.Keys == s.heap.Keys && (forall q :: q in s.heap && q != p ==> t.heap[q] == s.heap[q])
    requires t.heap[p].socket == s.heap[p].socket && t.heap[p].InUse() && t.maxDataLen >= HEADER_SIZE
    ensures t.Ok() && OthersKept(s, t, {p})
  {
    LiveIsNotCached(s, p);
  }

  /** A receive that grows a client's buffer makes the next context allocated as large. */
  lemma GrownForLater(s: Pool, p: nat, recv: Receiver, wild: bool, bytes: seq<Byte>)
    requires recv.raw.cur.cap > s.At(p).recv.raw.cur.cap
    ensures var (t, q) := s.WithRecv(p, recv, wild, bytes).(cache := []).Popped();
            q == s.next && t.At(q).recv.raw.cur.cap == recv.raw.cur.cap
  {
  }

  /** A send leaves a live client's receive half as it was. */
  ghost predicate ReceiveHalfKept(s: Pool, t: Pool, p: nat) {
    s.Live(p) ==> t.Live(p) && t.heap[p] == s.heap[p].(send := t.heap[p].send)
  }

  /** A receive that runs on, or goes wild, leaves the receive half where its bytes put it. */
  lemma ReceiveHalfOk(c: ContextValue, ev: RecvEvent, w: Wild)
    requires c.RecvOk() && Readies(c, ev, w)
    ensures !c.wild && c.recv.Taking(BytesOf(ev)).fate.Runs? ==>
              c.(recv := c.recv.Taking(BytesOf(ev)), got := c.got + BytesOf(ev)).RecvOk()
    ensures c.wild || c.recv.Taking(BytesOf(ev)).fate.Lost? ==>
              c.(recv := Receiver(w.raw, Runs, true), wild := true, got := c.got + BytesOf(ev)).RecvOk()
  {
    var bytes := BytesOf(ev);
    if c.wild {
      SpoiltOn(c.start, c.got, bytes);
    } else {
      var next := c.recv.Taking(bytes);
      if next.fate.Lost? {
        LostIsSpoilt(c.recv, c.start, c.got, bytes);
      } else {
        TakingKeeps(c.recv, c.start, c.got, bytes, next);
      }
    }
  }

  lemma ReceivingOk(s: Pool, p: nat, ev: RecvEvent, w: Wild)
    requires s.Ok() && Reportable(s, Client(p, Readable(ev, w))) && !ev.PeerClosed?
    ensures var t := Receiving(s, p, ev, w); t.Ok() && OthersKept(s, t, {p})
  {
    LiveIsNotCached(s, p);
    ReceiveHalfOk(s.heap[p], ev, w);
    TerminateOnce(s, p);
    var t := Receiving(s, p, ev, w);
    if t != s.Terminated(p) { ClientChanged(s, t, p); }
  }

  lemma WritingOk(s: Pool, p: nat, os: seq<SockResult>, epollOk: bool)
    requires s.Ok() && s.Live(p)
    ensures var t := Handled(s, Client(p, Writable(os, epollOk))).0; t.Ok() && OthersKept(s, t, {p})
  {
    LiveIsNotCached(s, p);
    DrainCallConserves(s.heap[p].send, os, epollOk);
    if DrainCall(s.heap[p].send, os, epollOk).1 {
      ClientChanged(s, Handled(s, Client(p, Writable(os, epollOk))).0, p);
    } else {
      TerminateOnce(s, p);
    }
  }

  lemma SendingOk(s: Pool, p: nat, msg: Message, os: seq<SockResult>, epollOk: bool)
    requires s.Ok() && s.Live(p)
    ensures var t := Handled(s, Sending(p, msg, os, epollOk)).0;
            t.Ok() && OthersKept(s, t, {p}) && ReceiveHalfKept(s, t, p)
  {
    LiveIsNotCached(s, p);
    SendCallConserves(s.heap[p].send, msg.Frame(), os, epollOk);
    ClientChanged(s, Handled(s, Sending(p, msg, os, epollOk)).0, p);
  }

  /** One event keeps the pool in order and touches no client but its own; a send touches no receive
      half. */
  lemma HandledOk(s: Pool, e: Event)
    requires s.Ok() && Reportable(s, e)
    ensures var t := Handled(s, e).0;
            && t.Ok() && OthersKept(s, t, if e.Listening? then {} else {e.p})
            && (e.Sending? ==> ReceiveHalfKept(s, t, e.p))
  {
    match e {
      case Listening(results) => AcceptingOk(s, results);
      case Client(p, Hangup) => TerminateOnce(s, p);
      case Client(p, Readable(ev, wild)) =>
        if ev.PeerClosed? { TerminateOnce(s, p); } else { ReceivingOk(s, p, ev, wild); }
      case Client(p, Writable(os, epollOk)) => WritingOk(s, p, os, epollOk);
      case Sending(p, msg, os, epollOk) =>
        if s.Live(p) { SendingOk(s, p, msg, os, epollOk); }
    }
  }

  lemma StaysReportable(s: Pool, t: Pool, first: Event, e: Event)
    requires Reportable(s, e)
    requires OthersKept(s, t, if first.Listening? then {} else {first.p})
    requires first.Sending? ==> ReceiveHalfKept(s, t, first.p)
    requires first.Client? && e.Client? ==> first.p != e.p
    ensures Reportable(t, e)
  {
  }

  lemma RestReportable(s: Pool, batch: seq<Event>)
    requires s.Ok() && batch != [] && BatchOk(s, batch)
    ensures BatchOk(Handled(s, batch[0]).0, batch[1..])
  {
    HandledOk(s, batch[0]);
    var t, rest := Handled(s, batch[0]).0, batch[1..];
    forall i | 0 <= i < |rest| ensures Reportable(t, rest[i]) {
      assert rest[i] == batch[i + 1];
      StaysReportable(s, t, batch[0], rest[i]);
    }
  }

  // ------------------------------------------- what an event does, from the event alone

  /** The results the kernel can give while the descriptors `open` are open. */
  function Usable(results: seq<AcceptResult>, open: set<int>): seq<AcceptResult> {
    if results == [] then []
    else if !results[0].Accepted? then [results[0]] + Usable(results[1..], open)
    else if results[0].fd in open then []
    else [results[0]] + Usable(results[1..], open + {results[0].fd})
  }

  /** The descriptors accepted until `accept` has none or EPOLLIN cannot be armed for one. */
  function TakenFds(rs: seq<AcceptResult>): seq<int> {
    if rs == [] || !rs[0].Accepted? then []
    else [rs[0].fd] + (if rs[0].epollOk then TakenFds(rs[1..]) else [])
  }

  /** How many are accepted without trouble. */
  function Smooth(rs: seq<AcceptResult>): (j: nat)
    ensures j <= |rs|
  {
    if rs == [] || !rs[0].Accepted? || !rs[0].epollOk then 0 else 1 + Smooth(rs[1..])
  }

  /** The accept loop fails if the first other result is an error of `accept` or of `epoll_ctl`. */
  predicate AcceptReturns(rs: seq<AcceptResult>) {
    Smooth(rs) == |rs| || rs[Smooth(rs)].WouldWait? || rs[Smooth(rs)].Aborted?
  }

  /** A context that has just been connected, and is otherwise as it came out of the cache. */
  predicate Serves(c: ContextValue, fd: int) {
    c.socket == fd && c.isConnected && c.(socket := -1, isConnected := false).Clean()
  }

  /** `t` is `s` with the descriptors `fds` accepted one after the other. */
  ghost predicate HasAccepted(s: Pool, fds: seq<int>, t: Pool) {
    && t.live.Keys == s.live.Keys + (set fd | fd in fds) && t.clientCnt == s.clientCnt + |fds|
    && (forall fd :: fd in fds ==> fd in t.live && t.live[fd] in t.heap && Serves(t.heap[t.live[fd]], fd))
    && t.cache == s.cache[Min(|fds|, |s.cache|)..] && t.maxDataLen == s.maxDataLen && OthersKept(s, t, {})
  }

  /** `u` is `s` with one descriptor accepted. */
  ghost predicate AddedOne(s: Pool, u: Pool, fd: int) {
    && u.live.Keys == s.live.Keys + {fd} && u.clientCnt == s.clientCnt + 1
    && u.live[fd] in u.heap && Serves(u.heap[u.live[fd]], fd)
    && u.cache == s.cache[Min(1, |s.cache|)..] && u.maxDataLen == s.maxDataLen && OthersKept(s, u, {})
  }

  ghost predicate AcceptOutcome(s: Pool, results: seq<AcceptResult>, t: Pool, ok: bool) {
    var rs := Usable(results, s.live.Keys);
    ok == AcceptReturns(rs) && HasAccepted(s, TakenFds(rs), t)
  }

  /** Only context `p` has changed. */
  ghost predicate OnlyAt(s: Pool, t: Pool, p: nat) {
    t.heap.Keys == s.heap.Keys && forall q :: q in s.heap && q != p ==> t.heap[q] == s.heap[q]
  }

  /** The client is no longer one: its socket is out of the map, and its context waits in the cache,
      as good as new, with the buffer it had. */
  ghost predicate Gone(s: Pool, t: Pool, p: nat)
    requires p in s.heap
  {
    && OnlyAt(s, t, p) && p in t.heap && t.heap[p].Clean() && !t.Live(p)
    && t.heap[p].start == s.heap[p].recv.raw.cur.cap
    && t.cache == s.cache + [p] && t.live == s.live - {s.heap[p].socket}
    && t.clientCnt == s.clientCnt - 1 && t.maxDataLen == s.maxDataLen
  }

  /** The client goes on as `c`; a buffer that has grown sets the capacity for later ones. */
  ghost predicate GoesOnAs(s: Pool, t: Pool, p: nat, c: ContextValue)
    requires p in s.heap
  {
    && OnlyAt(s, t, p) && p in t.heap && t.heap[p] == c && t.Live(p)
    && t.cache == s.cache && t.live == s.live && t.clientCnt == s.clientCnt
    && t.maxDataLen == (if c.recv.raw.cur.cap > s.heap[p].recv.raw.cur.cap then c.recv.raw.cur.cap
                        else s.maxDataLen)
  }

  ghost predicate ReadOutcome(s: Pool, p: nat, ev: RecvEvent, w: Wild, t: Pool)
    requires Reportable(s, Client(p, Readable(ev, w)))
  {
    var c, all := s.heap[p], s.heap[p].got + BytesOf(ev);
    if ev.PeerClosed? then Gone(s, t, p)
    else if c.wild || c.recv.Taking(BytesOf(ev)).fate.Lost? then
      if w.stays then GoesOnAs(s, t, p, c.(recv := Receiver(w.raw, Runs, true), wild := true, got := all))
      else Gone(s, t, p)
    else if c.recv.Taking(BytesOf(ev)).fate.Refused? then Gone(s, t, p)
    else GoesOnAs(s, t, p, c.(recv := c.recv.Taking(BytesOf(ev)), got := all))
  }

  ghost predicate EventOutcome(s: Pool, e: Event, t: Pool, outcome: Outcome)
    requires Reportable(s, e)
  {
    match e
    case Listening(results) => AcceptOutcome(s, results, t, outcome.Goes?)
    case Client(p, Hangup) => Gone(s, t, p) && outcome.Goes?
    case Client(p, Readable(ev, w)) => ReadOutcome(s, p, ev, w, t) && outcome.Goes?
    case Client(p, Writable(os, epollOk)) =>
      if DrainReturns(s.heap[p].send.pending, Telling(os), epollOk)
      then GoesOnAs(s, t, p, s.heap[p].(send := DrainLeaves(s.heap[p].send, Telling(os), epollOk))) && outcome.Goes?
      else Gone(s, t, p) && outcome.Stops?
    case Sending(p, msg, os, epollOk) =>
      && outcome.Goes?
      && if s.Live(p)
         then GoesOnAs(s, t, p, s.heap[p].(send := SendLeaves(s.heap[p].send, msg.Frame(), os, epollOk)))
         else t == s
  }

  /** A receive that the bytes so far do not spoil has delivered what the splitter yields on them. */
  lemma ReadDelivers(s: Pool, p: nat, ev: RecvEvent, w: Wild, t: Pool)
    requires s.Ok() && Reportable(s, Client(p, Readable(ev, w))) && !ev.PeerClosed?
    requires ReadOutcome(s, p, ev, w, t) && !Spoilt(s.heap[p].start, s.heap[p].got + BytesOf(ev))
    ensures t.Live(p) && !t.heap[p].wild && t.heap[p].got == s.heap[p].got + BytesOf(ev)
    ensures var all, raw := t.heap[p].got, t.heap[p].recv.raw;
            raw.Sound() && raw.delivered == Split(all).payloads && raw.View().unread == Split(all).rest
  {
    var c, bytes := s.heap[p], BytesOf(ev);
    LiveIsNotCached(s, p);
    if c.wild {
      SpoiltOn(c.start, c.got, bytes);
    } else if Breaks(c.start, 0, c.got) {
      BreaksOn(c.start, 0, c.got, bytes);
    } else {
      LostAtHeader(c.recv, c.start, c.got, bytes);
      StepStays(c.recv, c.start, c.got, bytes, c.recv.Taking(bytes));
    }
  }

  lemma TerminatedIsGone(s: Pool, p: nat)
    requires s.Ok() && s.Live(p)
    ensures Gone(s, s.Terminated(p), p)
  {
    LiveIsNotCached(s, p);
    TerminateOnce(s, p);
  }

  lemma ReceivingOutcome(s: Pool, p: nat, ev: RecvEvent, w: Wild)
    requires s.Ok() && Reportable(s, Client(p, Readable(ev, w))) && !ev.PeerClosed?
    ensures ReadOutcome(s, p, ev, w, Receiving(s, p, ev, w))
  {
    TerminatedIsGone(s, p);
  }

  lemma WritingOutcome(s: Pool, p: nat, os: seq<SockResult>, epollOk: bool)
    requires s.Ok() && s.Live(p)
    ensures var e := Client(p, Writable(os, epollOk)); EventOutcome(s, e, Handled(s, e).0, Handled(s, e).1)
  {
    LiveIsNotCached(s, p);
    DrainCallOutcome(s.heap[p].send, os, epollOk);
    TerminatedIsGone(s, p);
  }

  lemma AddedFresh(s: Pool, fd: int)
    requires s.Ok()
    ensures var p := s.Popped().1; p in s.Added(fd).heap && Serves(s.Added(fd).heap[p], fd)
  {
    PoppedIsClean(s.(clientCnt := s.clientCnt + 1));
  }

  lemma AddsOne(s: Pool, u: Pool, p: nat, fd: int)
    requires Adds(s, u, p, fd) && Serves(u.heap[p], fd) && OthersKept(s, u, {})
    ensures AddedOne(s, u, fd)
  {
    assert u.live.Keys == s.live.Keys + {fd};
  }

  lemma {:induction false} AcceptingOutcome(s: Pool, results: seq<AcceptResult>) returns (t: Pool, ok: bool)
    requires s.Ok()
    ensures (t, ok) == Accepting(s, results) && t.Ok() && AcceptOutcome(s, results, t, ok)
    decreases |results|
  {
    if results == [] || !results[0].Accepted? || results[0].fd in s.live {
      t, ok := s, results == [] || !results[0].AcceptFailed?;
      NoneAccepted(s, results);
    } else {
      var u := FirstAccepted(s, results[0].fd);
      t, ok := u, false;
      if results[0].epollOk {
        t, ok := AcceptingOutcome(u, results[1..]);
      }
      AcceptedStep(s, results, u, t, ok);
    }
  }

  lemma NoneAccepted(s: Pool, results: seq<AcceptResult>)
    requires results == [] || !results[0].Accepted? || results[0].fd in s.live
    ensures AcceptOutcome(s, results, s, results == [] || !results[0].AcceptFailed?)
  {
    if results != [] && !results[0].Accepted? {
      assert Usable(results, s.live.Keys)[0] == results[0];
    }
  }

  lemma FirstAccepted(s: Pool, fd: int) returns (u: Pool)
    requires s.Ok() && fd !in s.live
    ensures u == s.Added(fd) && u.Ok() && AddedOne(s, u, fd)
  {
    u := s.Added(fd);
    AddedOk(s, fd);
    AddedAdds(s, fd);
    AddedFresh(s, fd);
    AddsOne(s, u, s.Popped().1, fd);
  }

  lemma AcceptedStep(s: Pool, results: seq<AcceptResult>, u: Pool, t: Pool, ok: bool)
    requires results != [] && results[0].Accepted? && results[0].fd !in s.live
    requires AddedOne(s, u, results[0].fd)
    requires if results[0].epollOk then AcceptOutcome(u, results[1..], t, ok) else t == u && !ok
    ensures AcceptOutcome(s, results, t, ok)
  {
    var fd, rest := results[0].fd, Usable(results[1..], u.live.Keys);
    UsableStep(results, s.live.Keys);
    FirstResult(results[0], rest);
    if results[0].epollOk {
      AcceptedOneMore(s, u, t, fd, TakenFds(rest));
    } else {
      AcceptedOnly(s, u, fd);
      assert [fd] + [] == [fd];
    }
  }

  lemma UsableStep(results: seq<AcceptResult>, open: set<int>)
    requires results != [] && results[0].Accepted? && results[0].fd !in open
    ensures Usable(results, open) == [results[0]] + Usable(results[1..], open + {results[0].fd})
  {
  }

  lemma FirstResult(r: AcceptResult, rest: seq<AcceptResult>)
    requires r.Accepted?
    ensures TakenFds([r] + rest) == [r.fd] + (if r.epollOk then TakenFds(rest) else [])
    ensures AcceptReturns([r] + rest) == (r.epollOk && AcceptReturns(rest))
  {
    var rs := [r] + rest;
    assert rs[0] == r && rs[1..] == rest;
    if r.epollOk && Smooth(rest) < |rest| {
      assert rs[1 + Smooth(rest)] == rest[Smooth(rest)];
    }
  }

  lemma FrontTaken(cache: seq<nat>, k: nat)
    ensures cache[Min(1, |cache|)..][Min(k, |cache[Min(1, |cache|)..]|)..] == cache[Min(1 + k, |cache|)..]
  {
  }

  /** A client accepted first is still served once the others have been. */
  lemma StillServed(u: Pool, t: Pool, fd: int)
    requires fd in u.live && u.live[fd] in u.heap && Serves(u.heap[u.live[fd]], fd) && OthersKept(u, t, {})
    ensures fd in t.live && t.live[fd] in t.heap && Serves(t.heap[t.live[fd]], fd)
  {
    assert u.Live(u.live[fd]);
  }

  lemma KeptTwice(s: Pool, u: Pool, t: Pool)
    requires OthersKept(s, u, {}) && OthersKept(u, t, {})
    ensures OthersKept(s, t, {})
  {
  }

  lemma OneAndMore(fd: int, more: seq<int>)
    ensures (set x | x in [fd] + more) == {fd} + (set x | x in more)
  {
  }

  lemma AcceptedOneMore(s: Pool, u: Pool, t: Pool, fd: int, more: seq<int>)
    requires AddedOne(s, u, fd) && HasAccepted(u, more, t)
    ensures HasAccepted(s, [fd] + more, t)
  {
    AllServed(u, t, fd, more);
    KeptTwice(s, u, t);
    OneAndMore(fd, more);
    FrontTaken(s.cache, |more|);
  }

  lemma AllServed(u: Pool, t: Pool, fd: int, more: seq<int>)
    requires fd in u.live && u.live[fd] in u.heap && Serves(u.heap[u.live[fd]], fd) && OthersKept(u, t, {})
    requires forall x :: x in more ==> x in t.live && t.live[x] in t.heap && Serves(t.heap[t.live[x]], x)
    ensures forall x :: x in [fd] + more ==> x in t.live && t.live[x] in t.heap && Serves(t.heap[t.live[x]], x)
  {
    StillServed(u, t, fd);
  }

  lemma AcceptedOnly(s: Pool, t: Pool, fd: int)
    requires AddedOne(s, t, fd)
    ensures HasAccepted(s, [fd], t)
  {
    assert (set x | x in [fd]) == {fd};
  }

  lemma HasOutcome(s: Pool, e: Event)
    requires s.Ok() && Reportable(s, e)
    ensures EventOutcome(s, e, Handled(s, e).0, Handled(s, e).1)
  {
    match e {
      case Listening(results) => var t, ok := AcceptingOutcome(s, results);
      case Client(p, Hangup) => TerminatedIsGone(s, p);
      case Client(p, Readable(ev, w)) =>
        if ev.PeerClosed? { TerminatedIsGone(s, p); } else { ReceivingOutcome(s, p, ev, w); }
      case Client(p, Writable(os, epollOk)) => WritingOutcome(s, p, os, epollOk);
      case Sending(p, msg, os, epollOk) =>
        if s.Live(p) { SendCallOutcome(s.heap[p].send, msg.Frame(), os, epollOk); }
    }
  }

  /** Every event keeps the pool in order and has the outcome that the event alone says. */
  lemma HandledOutcome(s: Pool, e: Event) returns (t: Pool, outcome: Outcome)
    requires s.Ok() && Reportable(s, e)
    ensures (t, outcome) == Handled(s, e) && t.Ok() && EventOutcome(s, e, t, outcome)
  {
    HandledOk(s, e);
    HasOutcome(s, e);
    t, outcome := Handled(s, e).0, Handled(s, e).1;
  }

  // ----------------------------------------------------------------- the loop in place

  /** The next element of an iteration in no particular order. */
  method AnyOf<T>(s: set<T>) returns (x: T)
    requires s != {}
    ensures x in s
  {
    x :| x in s;
  }

  class Server {
    var heap: map<nat, ContextValue>
    var nextAddress: nat
    var cache: seq<nat>                 // queue_ctx_cache_
    var live: map<int, nat>             // map_sock_ctx_
    var clientCnt: int                  // client_cnt_
    var maxDataLen: nat                 // max_data_len_
    var isServerRunning: bool           // is_server_running_

    function State(): Pool
      reads this
    {
      Pool(heap, cache, live, clientCnt, nextAddress, maxDataLen)
    }

    constructor (bufferCapacity: nat)
      ensures State() == NoClients(bufferCapacity) && isServerRunning
    {
      heap, nextAddress := map[], 0;
      cache, live, clientCnt := [], map[], 0;
      maxDataLen, isServerRunning := bufferCapacity, true;
    }

    method PopClientContextFromCache() returns (p: nat)
      modifies `heap, `cache, `nextAddress
      ensures (State(), p) == old(State()).Popped()
      ensures old(cache) != [] ==> p == old(cache)[0] && cache == old(cache)[1..] && heap == old(heap)
      ensures old(cache) == [] ==> cache == [] && p in heap && heap == old(heap)[p := heap[p]]
                                   && heap[p].recv.raw.cur.cap == maxDataLen
      ensures old(State().Ok()) ==> FreeToServe(State(), p) && OthersKept(old(State()), State(), {})
    {
      ghost var s := State();
      if cache != [] {
        p := cache[0];
        cache := cache[1..];
      } else {
        p := nextAddress;
        nextAddress := nextAddress + 1;
        heap := heap[p := NewContext(maxDataLen)];
      }
      if s.Ok() { PoppedIsFree(s); }
    }

    method PushClientContextToCache(p: nat)
      requires p in heap
      modifies `heap, `cache, `live
      ensures State() == old(State()).Pushed(p)
      ensures cache == old(cache) + [p] && live == old(live) - {old(heap)[p].socket}
      ensures heap.Keys == old(heap.Keys) && heap[p].recv.raw.cur.cap == old(heap)[p].recv.raw.cur.cap
      ensures old(State().Ok()) ==> (State().(clientCnt := clientCnt - 1).Ok() <==> old(State().Live(p)))
    {
      ghost var s := State();
      live := live - {heap[p].socket};
      heap := heap[p := heap[p].Recycled()];
      cache := cache + [p];
      assert State().(clientCnt := clientCnt - 1) == s.Terminated(p);
      if s.Ok() { TerminateOnce(s, p); }
    }

    method TerminateClient(p: nat)
      requires p in heap
      modifies `heap, `cache, `live, `clientCnt
      ensures State() == old(State()).Terminated(p)
      ensures old(State().Ok()) ==> (State().Ok() <==> old(State().Live(p)))
      ensures old(State().Ok() && State().Live(p)) ==> OthersKept(old(State()), State(), {p})
      ensures old(State().Ok() && State().Live(p)) ==> Gone(old(State()), State(), p)
    {
      ghost var s := State();
      if s.Ok() && s.Live(p) { TerminatedIsGone(s, p); }
      clientCnt := clientCnt - 1;
      PushClientContextToCache(p);
      if s.Ok() { TerminateOnce(s, p); }
    }

    /** A round of the accept loop that got a descriptor. */
    method AddClient(fd: int)
      requires State().Ok() && fd !in live
      modifies `heap, `cache, `nextAddress, `live, `clientCnt
      ensures State() == old(State()).Added(fd)
      ensures State().Ok() && OthersKept(old(State()), State(), {})
    {
      ghost var s := State();
      PoppedIsClean(s);
      var p := PopClientContextFromCache();
      clientCnt := clientCnt + 1;
      heap := heap[p := heap[p].(socket := fd, isConnected := true)];
      live := live[fd := p];
      assert State() == s.Added(fd);
      AddedOk(s, fd);
    }

    /** A round of the accept loop, for the `i`-th result. */
    method AcceptRound(results: seq<AcceptResult>, i: nat) returns (more: bool, ok: bool)
      requires State().Ok() && i < |results|
      modifies this
      ensures State().Ok() && OthersKept(old(State()), State(), {})
      ensures if more then Accepting(State(), results[i + 1..]) == Accepting(old(State()), results[i..])
              else (State(), ok) == Accepting(old(State()), results[i..])
      ensures isServerRunning == (ok && old(isServerRunning)) && (more ==> ok)
      ensures var r := results[i];
              var adds := r.Accepted? && r.fd !in old(live);
              && (more <==> adds && r.epollOk) && (ok <==> !r.AcceptFailed? && (adds ==> r.epollOk))
    {
      var r := results[i];
      if !r.Accepted? || r.fd in live {
        if r.AcceptFailed? {
          isServerRunning := false;
        }
        return false, !r.AcceptFailed?;
      }
      AcceptingNext(State(), results, i);
      AddClient(r.fd);
      if !r.epollOk {
        isServerRunning := false;
        return false, false;
      }
      return true, true;
    }

    method AcceptNewClient(results: seq<AcceptResult>) returns (ok: bool)
      requires State().Ok()
      modifies this
      ensures (State(), ok) == Accepting(old(State()), results)
      ensures State().Ok() && OthersKept(old(State()), State(), {})
      ensures AcceptOutcome(old(State()), results, State(), ok)
      ensures isServerRunning == (ok && old(isServerRunning))
    {
      ghost var s := State();
      AcceptingOk(s, results);
      ghost var t, returned := AcceptingOutcome(s, results);
      assert results[0..] == results;
      var i := 0;
      while i < |results|
        invariant i <= |results| && State().Ok() && isServerRunning == old(isServerRunning)
        invariant Accepting(State(), results[i..]) == Accepting(s, results)
      {
        var more;
        more, ok := AcceptRound(results, i);
        if !more {
          return;
        }
        i := i + 1;
      }
      return true;
    }

    /** A receive that returns true; see `GrownForLater`. */
    method SetReceived(p: nat, recv: Receiver, wild: bool, bytes: seq<Byte>)
      requires p in heap
      modifies `heap, `maxDataLen
      ensures State() == old(State()).WithRecv(p, recv, wild, bytes)
    {
      maxDataLen := CapacityFor(maxDataLen, heap[p].recv.raw.cur.cap, recv.raw.cur.cap);
      heap := heap[p := heap[p].(recv := recv, wild := wild, got := heap[p].got + bytes)];
    }

    /** `RecvData` on a client, and its termination where it returns false. */
    method ReceiveFrom(p: nat, ev: RecvEvent, w: Wild)
      requires State().Ok() && Reportable(State(), Client(p, Readable(ev, w)))
      modifies `heap, `cache, `live, `clientCnt, `maxDataLen
      ensures State() == Handled(old(State()), Client(p, Readable(ev, w))).0
      ensures State().Ok() && OthersKept(old(State()), State(), {p})
    {
      HandledOk(State(), Client(p, Readable(ev, w)));
      if ev.PeerClosed? {
        TerminateClient(p);
        return;
      }
      var bytes := BytesOf(ev);
      if !heap[p].wild {
        var next := heap[p].recv.Taking(bytes);
        match next.fate {
          case Runs =>
            SetReceived(p, next, false, bytes);
            return;
          case Refused =>
            TerminateClient(p);
            return;
          case Lost =>
        }
      }
      if w.stays {
        SetReceived(p, Receiver(w.raw, Runs, true), true, bytes);
      } else {
        TerminateClient(p);
      }
    }

    /** `SendPendingData` on a client. */
    method DrainTo(p: nat, os: seq<SockResult>, epollOk: bool) returns (r: Outcome)
      requires State().Ok() && State().Live(p)
      modifies `heap, `cache, `live, `clientCnt
      ensures (State(), r) == Handled(old(State()), Client(p, Writable(os, epollOk)))
      ensures State().Ok() && OthersKept(old(State()), State(), {p})
    {
      WritingOk(State(), p, os, epollOk);
      var result := DrainCall(heap[p].send, os, epollOk);
      if !result.1 {
        TerminateClient(p);
        return Stops;
      }
      heap := heap[p := heap[p].(send := result.0)];
      return Goes;
    }

    method HandleClient(p: nat, what: Readiness) returns (r: Outcome)
      requires State().Ok() && Reportable(State(), Client(p, what))
      modifies `heap, `cache, `live, `clientCnt, `maxDataLen
      ensures (State(), r) == Handled(old(State()), Client(p, what))
      ensures State().Ok() && OthersKept(old(State()), State(), {p})
    {
      HandledOk(State(), Client(p, what));
      match what {
        case Hangup =>
          TerminateClient(p);
        case Readable(ev, wild) =>
          ReceiveFrom(p, ev, wild);
        case Writable(os, epollOk) =>
          r := DrainTo(p, os, epollOk);
          return;
      }
      return Goes;
    }

    /** The listening socket is ready. */
    method Listen(results: seq<AcceptResult>) returns (r: Outcome)
      requires State().Ok()
      modifies this
      ensures (State(), r) == Handled(old(State()), Listening(results))
      ensures isServerRunning == (r != Stops && old(isServerRunning))
    {
      var ok := AcceptNewClient(results);
      r := if ok then Goes else Stops;
    }

    /** The branch for an event. */
    method Dispatch(e: Event) returns (r: Outcome)
      requires State().Ok() && Reportable(State(), e)
      modifies this
      ensures (State(), r) == Handled(old(State()), e)
      ensures isServerRunning == (r != Stops && old(isServerRunning))
    {
      match e {
        case Listening(results) =>
          r := Listen(results);
        case Client(p, what) =>
          r := HandleClient(p, what);
        case Sending(p, msg, os, epollOk) =>
          var _ := SendData(p, msg, os, epollOk);
          r := Goes;
      }
      if r == Stops { isServerRunning := false; }
    }

    method HandleEvent(e: Event) returns (r: Outcome)
      requires State().Ok() && Reportable(State(), e)
      modifies this
      ensures (State(), r) == Handled(old(State()), e)
      ensures State().Ok() && OthersKept(old(State()), State(), if e.Listening? then {} else {e.p})
      ensures EventOutcome(old(State()), e, State(), r)
      ensures isServerRunning == (r != Stops && old(isServerRunning))
    {
      ghost var s := State();
      HandledOk(s, e);
      ghost var t, outcome := HandledOutcome(s, e);
      r := Dispatch(e);
    }

    /** `SendData` of a callback or another thread, on any context it has ever been given. */
    method SendData(p: nat, msg: Message, os: seq<SockResult>, epollOk: bool) returns (ok: bool)
      requires State().Ok()
      modifies `heap
      ensures State() == Handled(old(State()), Sending(p, msg, os, epollOk)).0 && State().Ok()
      ensures ok == (old(State().Live(p)) && SendReturns(old(heap)[p].send, msg.Frame(), os, epollOk))
      ensures ok ==> State().Live(p) && heap[p].send.Stream() == old(heap[p].send.Stream()) + msg.Frame()
      ensures ReceiveHalfKept(old(State()), State(), p) && OthersKept(old(State()), State(), {p})
    {
      if p !in heap || heap[p].socket !in live || live[heap[p].socket] != p {
        return false;
      }
      SendingOk(State(), p, msg, os, epollOk);
      LiveIsNotCached(State(), p);
      SendCallConserves(heap[p].send, msg.Frame(), os, epollOk);
      var w := SendCall(heap[p].send, msg.Frame(), os, epollOk);
      heap := heap[p := heap[p].(send := w.state)];
      ok := w.status.ok;
    }

    method ServerThreadRoutine(batches: seq<seq<Event>>) returns (r: Outcome)
      requires State().Ok()
      modifies this
      ensures (State(), r) == Loop(old(State()), batches) && State().Ok()
      ensures r == Stops ==> !isServerRunning
    {
      var b := 0;
      while b < |batches|
        invariant b <= |batches| && State().Ok()
        invariant Loop(State(), batches[b..]) == Loop(old(State()), batches)
      {
        ghost var s := State();
        var batch := Reported(State(), batches[b]);
        var i := 0;
        while i < |batch|
          invariant i <= |batch| && State().Ok() && BatchOk(State(), batch[i..])
          invariant HandledAll(State(), batch[i..]) == HandledAll(s, batch)
        {
          RestReportable(State(), batch[i..]);
          assert batch[i..][1..] == batch[i + 1..];
          r := HandleEvent(batch[i]);
          if r == Stops {
            isServerRunning := false;
            return;
          }
          i := i + 1;
        }
        assert batches[b..][1..] == batches[b + 1..];
        b := b + 1;
      }
      isServerRunning := false;
      return Stops;
    }

    /** The first loop of `ClearClientCache`. */
    method FreeCached() returns (freed: seq<nat>)
      modifies `heap, `cache
      ensures freed == old(cache) && cache == []
      ensures heap == FreedFrom(old(heap), freed)
    {
      freed := [];
      while cache != []
        invariant freed + cache == old(cache) && heap == FreedFrom(old(heap), freed)
        decreases |cache|
      {
        FreedOne(old(heap), freed, cache[0]);
        heap := heap - {cache[0]};
        freed := freed + [cache[0]];
        cache := cache[1..];
      }
    }

    /** One call frees every allocated context exactly once. It does not empty the socket map. */
    method ClearClientCache() returns (freed: seq<nat>)
      requires State().Ok()
      modifies `heap, `cache
      ensures Distinct(freed) && (forall p :: p in freed <==> p in old(heap))
      ensures heap == map[] && cache == []
    {
      ghost var s := State();
      freed := FreeCached();
      var fds := live.Keys;
      while fds != {}
        invariant cache == [] && heap == FreedFrom(s.heap, freed)
        invariant FreedSoFar(s, freed, fds)
        decreases fds
      {
        var fd := AnyOf(fds);
        FreedMore(s, freed, fds, fd);
        FreedOne(s.heap, freed, live[fd]);
        heap := heap - {live[fd]};
        freed := freed + [live[fd]];
        fds := fds - {fd};
      }
    }
  }

  ghost function FreedFrom(heap: map<nat, ContextValue>, freed: seq<nat>): map<nat, ContextValue> {
    map p | p in heap && p !in freed :: heap[p]
  }

  lemma FreedOne(heap: map<nat, ContextValue>, freed: seq<nat>, p: nat)
    ensures FreedFrom(heap, freed) - {p} == FreedFrom(heap, freed + [p])
  {
    assert forall q :: q in freed + [p] <==> q in freed || q == p;
  }

  /** Once the cache has been freed, and the live contexts except those of `fds`. */
  ghost predicate FreedSoFar(s: Pool, freed: seq<nat>, fds: set<int>) {
    && Distinct(freed) && (forall p :: p in freed ==> p in s.heap)
    && (forall p :: p in s.cache ==> p in freed)
    && fds <= s.live.Keys
    && (forall fd :: fd in s.live ==> (s.live[fd] in freed <==> fd !in fds))
  }

  lemma FreedMore(s: Pool, freed: seq<nat>, fds: set<int>, fd: int)
    requires s.Ok() && FreedSoFar(s, freed, fds) && fd in fds
    ensures FreedSoFar(s, freed + [s.live[fd]], fds - {fd})
  {
    var more := freed + [s.live[fd]];
    assert forall p :: p in more <==> p in freed || p == s.live[fd];
  }
}
