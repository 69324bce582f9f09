/** What the byte stream means: messages framed by the length header, and the one-shot splitter. */
module Framing {
  import opened Header

  /** A message as one `SendData` call frames it; `stale` are the header's leftover stack bytes. */
  datatype Message = Message(payload: seq<Byte>, stale: Stale) {
    /** The header can express the payload's length (see `HeaderRoundTrip`). */
    ghost predicate Printable() { |payload| <= MAX_PRINTABLE }

    /** The length of the frame. */
    function Size(): nat { HEADER_SIZE + |payload| }

    function Frame(): (f: seq<Byte>)
      ensures |f| == Size()
    {
      PrintHeader(|payload|, stale) + payload
    }
  }

  datatype Parsed = Parsed(payloads: seq<seq<Byte>>, rest: seq<Byte>)

  /** Length of the first frame of a byte string, once its header is complete. */
  function FirstLen(s: seq<Byte>): (r: Option<nat>)
    ensures r.Some? ==> r.value >= HEADER_SIZE
  {
    if |s| < HEADER_SIZE then None else FrameLen(s[..HEADER_SIZE])
  }

  /** The stream stands at a header that cannot be read. */
  predicate Stuck(s: seq<Byte>) { |s| >= HEADER_SIZE && FirstLen(s).None? }

  /** Splits a byte string into the payloads of its complete frames and the unparsed tail. */
  function Split(s: seq<Byte>): (p: Parsed)
    ensures |p.rest| <= |s|
    decreases |s|
  {
    var n := FirstLen(s);
    if n.None? || n.value > |s| then Parsed([], s)
    else
      var p := Split(s[n.value..]);
      Parsed([s[HEADER_SIZE..n.value]] + p.payloads, p.rest)
  }

  ghost predicate AllPrintable(ms: seq<Message>) { forall m :: m in ms ==> m.Printable() }

  ghost function Frames(ms: seq<Message>): seq<Byte>
  {
    if ms == [] then [] else ms[0].Frame() + Frames(ms[1..])
  }

  ghost function Payloads(ms: seq<Message>): (ps: seq<seq<Byte>>)
    ensures |ps| == |ms| && forall i :: 0 <= i < |ms| ==> ps[i] == ms[i].payload
  {
    if ms == [] then [] else [ms[0].payload] + Payloads(ms[1..])
  }

  ghost function Concat(chunks: seq<seq<Byte>>): seq<Byte> {
    if chunks == [] then [] else chunks[0] + Concat(chunks[1..])
  }

  // ------------------------------------------------------------- the splitter

  lemma FirstLenOfPrefix(s: seq<Byte>, t: seq<Byte>)
    requires |s| >= HEADER_SIZE
    ensures FirstLen(s + t) == FirstLen(s)
  {
    assert (s + t)[..HEADER_SIZE] == s[..HEADER_SIZE];
  }

  /** Splitting in two steps, keeping the tail in between, is splitting at once. */
  lemma {:induction false} SplitAppend(s: seq<Byte>, t: seq<Byte>)
    ensures var p, q := Split(s), Split(Split(s).rest + t);
            Split(s + t) == Parsed(p.payloads + q.payloads, q.rest)
    decreases |s|
  {
    var n := FirstLen(s);
    if n.Some? && n.value <= |s| {
      var k := n.value;
      FirstLenOfPrefix(s, t);
      assert (s + t)[HEADER_SIZE..k] == s[HEADER_SIZE..k];
      assert (s + t)[k..] == s[k..] + t;
      SplitAppend(s[k..], t);
      SamePayloads(s[HEADER_SIZE..k], Split(s[k..]).payloads, Split(Split(s).rest + t).payloads);
    }
  }

  lemma SamePayloads(x: seq<Byte>, a: seq<seq<Byte>>, b: seq<seq<Byte>>)
    ensures [x] + (a + b) == ([x] + a) + b
  {
  }

  lemma {:induction false} SplitRestIsUnsplit(s: seq<Byte>)
    ensures var r := Split(s).rest;
            Split(r) == Parsed([], r) && (FirstLen(r).None? || FirstLen(r).value > |r|)
    decreases |s|
  {
    var n := FirstLen(s);
    if n.Some? && n.value <= |s| { SplitRestIsUnsplit(s[n.value..]); }
  }

  /** The first message of a byte string that starts like a frame. */
  lemma FirstLenOfFrame(m: Message, s: seq<Byte>)
    requires m.Printable() && |s| >= HEADER_SIZE
    requires s[..HEADER_SIZE] == m.Frame()[..HEADER_SIZE]
    ensures FirstLen(s) == Some(HEADER_SIZE + |m.payload|)
  {
    HeaderRoundTrip(|m.payload|, m.stale);
    assert m.Frame()[..HEADER_SIZE] == PrintHeader(|m.payload|, m.stale);
  }

  /** Framing then splitting gives the payloads back, with nothing left over. */
  lemma {:induction false} SplitFrames(ms: seq<Message>)
    requires AllPrintable(ms)
    ensures Split(Frames(ms)) == Parsed(Payloads(ms), [])
  {
    if ms != [] {
      var m, s := ms[0], Frames(ms);
      var k := HEADER_SIZE + |m.payload|;
      assert s[..HEADER_SIZE] == m.Frame()[..HEADER_SIZE];
      FirstLenOfFrame(m, s);
      assert s[k..] == Frames(ms[1..]);
      assert s[HEADER_SIZE..k] == m.payload;
      SplitFrames(ms[1..]);
    }
  }

  /** `p` has split off some of the messages, and its tail begins the next message's frame. */
  ghost predicate SplitsOff(p: Parsed, ms: seq<Message>) {
    && p.payloads <= Payloads(ms)
    && !Stuck(p.rest)
    && (|p.rest| >= HEADER_SIZE ==>
          && |p.payloads| < |ms|
          && FirstLen(p.rest) == Some(HEADER_SIZE + |ms[|p.payloads|].payload|))
  }

  lemma FrameBoundary(ms: seq<Message>, s: seq<Byte>)
    requires ms != [] && s <= Frames(ms)
    ensures |s| >= HEADER_SIZE ==> s[..HEADER_SIZE] == ms[0].Frame()[..HEADER_SIZE]
    ensures var k := HEADER_SIZE + |ms[0].payload|;
            |s| >= k ==> s[k..] <= Frames(ms[1..]) && s[HEADER_SIZE..k] == ms[0].payload
  {
    var m, f := ms[0], Frames(ms);
    var k := HEADER_SIZE + |m.payload|;
    assert f[k..] == Frames(ms[1..]);
    assert f[HEADER_SIZE..k] == m.payload;
    assert f[..HEADER_SIZE] == m.Frame()[..HEADER_SIZE];
    assert s == f[..|s|];
  }

  /** Every prefix of a framed stream splits into a prefix of the messages. */
  lemma {:induction false} SplitPrefix(ms: seq<Message>, s: seq<Byte>)
    requires AllPrintable(ms) && s <= Frames(ms)
    ensures SplitsOff(Split(s), ms)
  {
    if ms != [] && |s| >= HEADER_SIZE {
      var m := ms[0];
      var k := HEADER_SIZE + |m.payload|;
      FrameBoundary(ms, s);
      FirstLenOfFrame(m, s);
      if k <= |s| {
        SplitPrefix(ms[1..], s[k..]);
        PayloadsStep(Split(s), Split(s[k..]), ms);
      }
    }
  }

  lemma PayloadsStep(p: Parsed, q: Parsed, ms: seq<Message>)
    requires ms != [] && SplitsOff(q, ms[1..])
    requires p == Parsed([ms[0].payload] + q.payloads, q.rest)
    ensures SplitsOff(p, ms)
  {
  }

  // ------------------------------------------------------------ concatenation

  lemma {:induction false} FramesAppend(a: seq<Message>, b: seq<Message>)
    ensures Frames(a + b) == Frames(a) + Frames(b)
  {
    if a == [] {
      assert a + b == b;
    } else {
      assert a + b == [a[0]] + (a[1..] + b);
      assert (a + b)[1..] == a[1..] + b;
      FramesAppend(a[1..], b);
    }
  }

  lemma {:induction false} ConcatAppend(a: seq<seq<Byte>>, b: seq<seq<Byte>>)
    ensures Concat(a + b) == Concat(a) + Concat(b)
  {
    if a == [] {
      assert a + b == b;
    } else {
      assert (a + b)[1..] == a[1..] + b;
      ConcatAppend(a[1..], b);
    }
  }
}
