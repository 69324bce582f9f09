/** The cursor arithmetic of the circular buffer, apart from the bytes. */
module Cursors {
  import opened Header

  /** Capacity, read cursor, write cursor and fill count. Either cursor may rest at `cap`. */
  datatype Cursors = Cursors(cap: nat, read: nat, write: nat, fill: nat) {

    /** Equal cursors mean empty or full; only the fill count tells which. */
    predicate Ok() {
      && read <= cap && write <= cap && fill <= cap
      && (write > read ==> fill == write - read)
      && (write < read ==> fill == cap - read + write)
      && (write == read ==> fill == 0 || fill == cap)
    }

    /** All that is left of `Ok` once a growth has put the cursors out of line. */
    predicate InBounds() { read <= cap && write <= cap && fill <= cap }

    /** Counting the unread bytes on from the read cursor ends at the write cursor. */
    predicate Contiguous() { read + fill == write }

    /** Where the k-th unread byte lives. */
    function Position(k: nat): (p: nat) {
      if read + k < cap then read + k else read + k - cap
    }

    /** `GetLinearFreeSpace`. */
    function LinearFree(): int {
      if write == cap then cap - fill
      else if read < write then cap - write
      else if read > write then read - write
      else cap - write
    }

    /** `GetLinearAppendPtr` moves a write cursor that rests at the end of a buffer with room. */
    function Rewound(): Cursors {
      if write == cap && cap != fill then this.(write := 0) else this
    }

    /** `IncreaseData`. */
    function Increased(n: nat): Cursors { this.(write := write + n, fill := fill + n) }

    /** `PeekData`, `ConsumeData` and `GetData` find `n` bytes; only their first two tests can fail
        while the cursors are in line. */
    predicate Yields(n: nat) {
      && fill != 0 && n <= fill
      && (if write > read then read + n <= write
          else cap < read + n ==> write > 0 && read + n <= cap + write)
    }

    /** The cursors after `ConsumeData` or `GetData` has taken `n` bytes. */
    function Consumed(n: nat): Cursors
      requires read <= cap && n <= fill
    {
      this.(read := if write <= read && cap < read + n then n - (cap - read) else read + n,
            fill := fill - n)
    }

    /** `IncreaseBufferAndCopyExisting` keeps both cursors. */
    function Grown(n: nat): Cursors { this.(cap := n) }

    function Emptied(): Cursors { this.(read := 0, write := 0, fill := 0) }
  }

  /** The unread bytes of a buffer, oldest first. */
  ghost function Unread(mem: seq<Byte>, c: Cursors): (s: seq<Byte>)
    requires c.Ok() && |mem| == c.cap
    ensures |s| == c.fill
  {
    seq(c.fill, k requires 0 <= k < c.fill => mem[c.Position(k)])
  }

  /** The granted window lies in the buffer, is as long as announced, and holds no unread byte;
      granting it moves no unread byte. It is non-empty exactly when the buffer has room, except
      that a full buffer with both cursors inside it also announces a window. */
  lemma WindowIsFree(c: Cursors)
    requires c.Ok()
    ensures var n, w := c.LinearFree(), c.Rewound();
            && w.Ok() && (c.fill < c.cap ==> w.Rewound() == w && w.LinearFree() == n)
            && 0 <= n && w.write + n <= c.cap
            && (c.fill < c.cap ==> n > 0 && c.fill + n <= c.cap)
            && (c.fill == c.cap ==> (n > 0 <==> c.write < c.cap))
            && (forall k: nat :: k < c.fill ==> w.Position(k) == c.Position(k))
            && (c.fill < c.cap ==>
                  forall k: nat :: k < c.fill ==> !(w.write <= w.Position(k) < w.write + n))
  {
  }

  /** No longer window would do: it ends at the end of the buffer or at the oldest unread byte. */
  lemma WindowIsLargest(c: Cursors)
    requires c.Ok() && c.fill < c.cap
    ensures var end := c.Rewound().write + c.LinearFree();
            end == c.cap || (c.fill > 0 && end == c.Position(0))
  {
  }

  /** In bounds, the window is always inside the buffer; a write cursor at the end is moved. */
  lemma WindowInBounds(c: Cursors)
    requires c.InBounds()
    ensures var n, w := c.LinearFree(), c.Rewound();
            && n >= 0 && w.InBounds() && (n > 0 ==> w.write + n <= c.cap)
  {
  }

  /** Bytes written at the start of the window are the next ones in line. */
  lemma FilledWindow(c: Cursors, n: nat)
    requires c.Ok() && c.fill < c.cap && n <= c.LinearFree()
    ensures var w := c.Rewound();
            var d := w.Increased(n);
            && d.Ok() && d.fill == c.fill + n && d.cap == c.cap
            && (forall k: nat :: k < c.fill ==> d.Position(k) == c.Position(k))
            && (forall k: nat :: c.fill <= k < d.fill ==> d.Position(k) == w.write + (k - c.fill))
  {
  }

  /** Consuming drops the oldest positions and keeps the others. */
  lemma ConsumedPositions(c: Cursors, n: nat)
    requires c.Ok() && n <= c.fill
    ensures var d := c.Consumed(n);
            d.Ok() && forall k: nat :: k < d.fill ==> d.Position(k) == c.Position(n + k)
  {
  }

  /** Growing in place keeps the invariant exactly when the read cursor, moved on by the fill count,
      meets the write cursor. Bytes that lie in one piece are not enough: the read cursor may rest at
      the end while they start the buffer. */
  lemma GrowthBoundary(c: Cursors, n: nat)
    requires c.Ok() && n > c.cap
    ensures c.Grown(n).Ok() <==> c.Contiguous()
    ensures c.Contiguous() ==>
              c.Grown(n).Contiguous()
              && forall k: nat :: k < c.fill ==> c.Grown(n).Position(k) == c.Position(k)
  {
  }
}
