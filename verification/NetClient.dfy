/** The framed transport: `NetClient`. Length-prefixed frames, the hand-over between `send` and
    `write_loop` on the strand, and the reconnect backoff. Sockets, TLS and the message format inside a
    frame are not part of this model. */
module NetClient {
  import opened Seqs

  type Octet = x: nat | x < 256

  const MAX_FRAME_SIZE := 65536

  // ---------------------------------------------------------------------------------------------
  // Frames
  // ---------------------------------------------------------------------------------------------

  /** A 32-bit size, most significant byte first. */
  function Header(size: nat): (h: seq<Octet>)
    requires size < 0x1_0000_0000
    ensures |h| == 4
  {
    [size / 0x100_0000 % 256, size / 0x1_0000 % 256, size / 0x100 % 256, size % 256]
  }

  function SizeOf(h: seq<Octet>): nat
    requires |h| >= 4
  {
    Assemble(h[0], h[1], h[2], h[3])
  }

  function Assemble(a: nat, b: nat, c: nat, d: nat): nat {
    a * 0x100_0000 + b * 0x1_0000 + c * 0x100 + d
  }

  /** Taking the last digit off, base 256. */
  lemma LastDigit(n: nat, p: nat)
    requires p == 1 || p == 0x100 || p == 0x1_0000
    ensures n / p == n / (0x100 * p) * 0x100 + n / p % 256
  {
  }

  lemma FourDigits(n: nat, q1: nat, q2: nat, q3: nat, d0: nat, d1: nat, d2: nat)
    requires n == q1 * 256 + d0 && q1 == q2 * 256 + d1 && q2 == q3 * 256 + d2
    ensures Assemble(q3, d2, d1, d0) == n
  {
  }

  lemma HeaderRoundTrip(size: nat)
    requires size < 0x1_0000_0000
    ensures SizeOf(Header(size)) == size
  {
    hide Assemble;
    LastDigit(size, 1);
    LastDigit(size, 0x100);
    LastDigit(size, 0x1_0000);
    var q3 := size / 0x100_0000;
    assert q3 % 256 == q3;
    FourDigits(size, size / 0x100, size / 0x1_0000, q3, size % 256, size / 0x100 % 256, size / 0x1_0000 % 256);
  }

  /** Most significant byte first: one more digit, base 256, goes behind the others. */
  lemma HeaderIsBigEndian(q: nat, d: Octet)
    requires q < 0x100_0000
    ensures Header(0) == [0, 0, 0, 0] && Header(256 * q + d) == Header(q)[1..] + [d]
  {
  }

  lemma Digits(a: Octet, b: Octet, c: Octet, d: Octet)
    ensures var a', b', c', d': nat := a, b, c, d; var n := Assemble(a', b', c', d');
            && n < 0x1_0000_0000 && n % 256 == d' && n / 0x100 == a' * 0x1_0000 + b' * 0x100 + c'
            && n / 0x1_0000 == a' * 0x100 + b' && n / 0x100_0000 == a'
  {
  }

  lemma LastDigits(a: nat, b: nat, c: nat)
    requires b < 256 && c < 256
    ensures (a * 0x1_0000 + b * 0x100 + c) % 256 == c && (a * 0x100 + b) % 256 == b
  {
  }

  lemma SizeRoundTrip(h: seq<Octet>)
    requires |h| == 4
    ensures SizeOf(h) < 0x1_0000_0000 && Header(SizeOf(h)) == h
  {
    Digits(h[0], h[1], h[2], h[3]);
    LastDigits(h[0], h[1], h[2]);
  }

  predicate Sendable(body: seq<Octet>) { |body| <= MAX_FRAME_SIZE }

  function Frame(body: seq<Octet>): seq<Octet>
    requires Sendable(body)
  {
    Header(|body|) + body
  }

  /** The bytes on the connection after sending `bodies`. */
  function Stream(bodies: seq<seq<Octet>>): seq<Octet>
    requires forall k | 0 <= k < |bodies| :: Sendable(bodies[k])
  {
    if bodies == [] then [] else Frame(bodies[0]) + Stream(bodies[1..])
  }

  /** What the reader has made of the bytes received so far: the complete bodies, the bytes of the frame
      it is waiting for, and whether it has given up on an impossible size. */
  datatype Received = Received(bodies: seq<seq<Octet>>, rest: seq<Octet>, bad: bool)

  function Parse(stream: seq<Octet>): Received
    decreases |stream|
  {
    if |stream| < 4 then Received([], stream, false)
    else
      var size := SizeOf(stream);
      if size == 0 || size > MAX_FRAME_SIZE then Received([], stream, true)
      else if |stream| < 4 + size then Received([], stream, false)
      else
        var r := Parse(stream[4 + size..]);
        r.(bodies := [stream[4..4 + size]] + r.bodies)
  }

  /** One turn of `read_loop`: it waits for more bytes, throws, or has a payload. */
  datatype ReadStep = Waits | Throws | Payload(body: seq<Octet>)

  /** The turn is what parsing `s` begins with. */
  ghost predicate BeginsWith(s: seq<Octet>, t: ReadStep) {
    match t
    case Waits => Parse(s) == Received([], s, false)
    case Throws => Parse(s) == Received([], s, true)
    case Payload(body) =>
      4 + |body| <= |s| && var r := Parse(s[4 + |body|..]); Parse(s) == r.(bodies := [body] + r.bodies)
  }

  method ReadFrame(stream: seq<Octet>, consumed: nat) returns (t: ReadStep)
    requires consumed <= |stream|
    ensures BeginsWith(stream[consumed..], t)
  {
    ghost var s := stream[consumed..];
    ReadsNext(s);
    hide BeginsWith, SizeOf;
    if consumed + 4 > |stream| { return Waits; }
    var header := stream[consumed..consumed + 4];
    assert header == s[..4];
    SizeIsInFront(s);
    var payloadSize := SizeOf(header);
    if payloadSize == 0 || payloadSize > MAX_FRAME_SIZE { return Throws; }
    if consumed + 4 + payloadSize > |stream| { return Waits; }
    var payload := stream[consumed + 4..consumed + 4 + payloadSize];
    assert payload == s[4..4 + payloadSize];
    t := Payload(payload);
  }

  lemma ReadsNext(s: seq<Octet>)
    ensures BeginsWith(s, if |s| < 4 then Waits
                      else var size := SizeOf(s);
                        if size == 0 || size > MAX_FRAME_SIZE then Throws
                        else if |s| < 4 + size then Waits
                        else Payload(s[4..4 + size]))
  {
    hide SizeOf;
    if |s| >= 4 { ParseTurn(s); } else { ShortParse(s); }
  }

  /** `read_loop` over the bytes received so far; `parses` says which bodies are well-formed envelopes,
      the others are skipped. The loop sees that the client is stopping after `turns` frames, if it gets
      that far. */
  method ReadLoop(stream: seq<Octet>, parses: seq<Octet> -> bool, turns: nat)
    returns (delivered: seq<seq<Octet>>, consumed: nat, bad: bool)
    ensures consumed <= |stream|
    ensures var all := Parse(stream);
            if |all.bodies| < turns then
              delivered == Kept(all.bodies, parses) && bad == all.bad && stream[consumed..] == all.rest
            else
              delivered == Kept(all.bodies[..turns], parses) && !bad && ReadUpTo(stream, consumed, all.bodies[..turns])
  {
    hide Parse, Kept;
    delivered, consumed, bad := [], 0, false;
    ghost var bodies: seq<seq<Octet>> := [];
    StartReading(stream, parses);
    for n := 0 to turns
      invariant consumed <= |stream| && delivered == Kept(bodies, parses) && ReadUpTo(stream, consumed, bodies)
      invariant |bodies| == n && !bad
    {
      var turn := ReadFrame(stream, consumed);
      if !turn.Payload? {
        bad := turn.Throws?;
        assert bodies + [] == bodies;
        return;
      }
      ReadOn(stream, consumed, bodies, turn.body);
      KeptSnoc(bodies, turn.body, parses);
      bodies := bodies + [turn.body];
      consumed := consumed + 4 + |turn.body|;
      if parses(turn.body) { delivered := delivered + [turn.body]; }
    }
    assert bodies == Parse(stream).bodies[..turns];
  }

  lemma StartReading(stream: seq<Octet>, parses: seq<Octet> -> bool)
    ensures ReadUpTo(stream, 0, []) && Kept([], parses) == []
  {
    assert stream[0..] == stream;
  }

  lemma SizeIsInFront(s: seq<Octet>)
    requires |s| >= 4
    ensures SizeOf(s[..4]) == SizeOf(s)
  {
  }

  lemma ReadOn(stream: seq<Octet>, consumed: nat, bodies: seq<seq<Octet>>, payload: seq<Octet>)
    requires consumed <= |stream| && ReadUpTo(stream, consumed, bodies)
    requires BeginsWith(stream[consumed..], Payload(payload))
    ensures consumed + 4 + |payload| <= |stream|
    ensures ReadUpTo(stream, consumed + 4 + |payload|, bodies + [payload])
  {
    hide Parse;
    var n := 4 + |payload|;
    assert stream[consumed..][n..] == stream[consumed + n..];
    Reassociate(bodies, [payload], Parse(stream[consumed + n..]).bodies);
  }

  ghost predicate ReadUpTo(stream: seq<Octet>, consumed: nat, bodies: seq<seq<Octet>>)
    requires consumed <= |stream|
  {
    var r := Parse(stream[consumed..]);
    Parse(stream) == r.(bodies := bodies + r.bodies)
  }

  /** What the reader does with the front of a stream. */
  lemma ParseTurn(s: seq<Octet>)
    requires |s| >= 4
    ensures var size := SizeOf(s);
            if size == 0 || size > 65536 then Parse(s) == Received([], s, true)
            else if |s| < 4 + size then Parse(s) == Received([], s, false)
            else var r := Parse(s[4 + size..]); Parse(s) == r.(bodies := [s[4..4 + size]] + r.bodies)
  {
  }

  function Kept<T>(xs: seq<T>, p: T -> bool): seq<T> {
    FlatMap(x => if p(x) then [x] else [], xs)
  }

  lemma KeptSnoc<T>(xs: seq<T>, x: T, p: T -> bool)
    ensures Kept(xs + [x], p) == Kept(xs, p) + if p(x) then [x] else []
  {
    FlatMapSnoc(x => if p(x) then [x] else [], xs, x);
  }

  // ---------------------------------------------------------------------------------------------
  // Laws of the framing
  // ---------------------------------------------------------------------------------------------

  /** The reader takes a complete frame off the front of whatever follows it. */
  lemma ParseFrame(body: seq<Octet>, rest: seq<Octet>)
    requires Sendable(body) && body != []
    ensures var r := Parse(rest); Parse(Frame(body) + rest) == r.(bodies := [body] + r.bodies)
  {
    var s := Frame(body) + rest;
    HeaderRoundTrip(|body|);
    assert s[..4] == Header(|body|);
    assert SizeOf(s) == SizeOf(s[..4]);
    assert s[4..4 + |body|] == body && s[4 + |body|..] == rest;
  }

  lemma {:induction false} FramingRoundTrip(bodies: seq<seq<Octet>>)
    requires forall k | 0 <= k < |bodies| :: Sendable(bodies[k]) && bodies[k] != []
    ensures Parse(Stream(bodies)) == Received(bodies, [], false)
  {
    if bodies != [] {
      FramingRoundTrip(bodies[1..]);
      ParseFrame(bodies[0], Stream(bodies[1..]));
    }
  }

  /** Every list of bodies that `send` lets through is recovered exactly when none of them is empty: an
      empty body is framed with size 0, on which the reader gives up. */
  lemma {:induction false} RecoveredIffNoneEmpty(bodies: seq<seq<Octet>>)
    requires forall k | 0 <= k < |bodies| :: Sendable(bodies[k])
    ensures Parse(Stream(bodies)) == Received(bodies, [], false) <==> [] !in bodies
  {
    if [] !in bodies {
      FramingRoundTrip(bodies);
    } else if bodies[0] == [] {
      var s := Stream(bodies);
      HeaderRoundTrip(0);
      assert s[..4] == Header(0);
      assert SizeOf(s) == SizeOf(s[..4]);
    } else {
      assert [] in bodies[1..];
      RecoveredIffNoneEmpty(bodies[1..]);
      ParseFrame(bodies[0], Stream(bodies[1..]));
      assert bodies == [bodies[0]] + bodies[1..];
    }
  }

  /** Nothing is lost or made up: the recovered bodies, framed again, and the left-over bytes are the
      stream. */
  lemma {:induction false} ParseIsFaithful(stream: seq<Octet>)
    ensures forall k | 0 <= k < |Parse(stream).bodies| :: Sendable(Parse(stream).bodies[k])
    ensures Stream(Parse(stream).bodies) + Parse(stream).rest == stream
    decreases |stream|
  {
    if |stream| >= 4 {
      ParseTurn(stream);
      hide Parse, SizeOf, Frame;
      var size := SizeOf(stream);
      if 0 < size <= MAX_FRAME_SIZE && 4 + size <= |stream| {
        ParseIsFaithful(stream[4 + size..]);
        FrontIsFrame(stream, size);
        StreamGrows(stream[4..4 + size], Parse(stream[4 + size..]).bodies, Parse(stream[4 + size..]).rest);
      }
    } else {
      ShortParse(stream);
    }
  }

  lemma StreamGrows(body: seq<Octet>, bodies: seq<seq<Octet>>, rest: seq<Octet>)
    requires Sendable(body) && forall k | 0 <= k < |bodies| :: Sendable(bodies[k])
    ensures forall k | 0 <= k < |[body] + bodies| :: Sendable(([body] + bodies)[k])
    ensures Stream([body] + bodies) + rest == Frame(body) + (Stream(bodies) + rest)
  {
    hide Frame;
    assert ([body] + bodies)[1..] == bodies;
    Reassociate(Frame(body), Stream(bodies), rest);
  }

  lemma FrontIsFrame(stream: seq<Octet>, size: nat)
    requires 4 <= 4 + size <= |stream| && size == SizeOf(stream) && size <= MAX_FRAME_SIZE
    ensures stream == Frame(stream[4..4 + size]) + stream[4 + size..]
  {
    SizeRoundTrip(stream[..4]);
    assert stream == stream[..4] + stream[4..4 + size] + stream[4 + size..];
  }

  /** Bytes may arrive in any portions: reading on from the left-over bytes gives what reading everything
      at once gives. */
  lemma {:induction false} ParseInPortions(a: seq<Octet>, b: seq<Octet>)
    ensures var ra := Parse(a);
            Parse(a + b) == if ra.bad then Received(ra.bodies, ra.rest + b, true)
                            else var r := Parse(ra.rest + b); r.(bodies := ra.bodies + r.bodies)
    decreases |a|
  {
    hide Parse;
    if |a| < 4 {
      ShortParse(a);
    } else {
      var size := SizeOf(a);
      assert SizeOf(a + b) == size;
      ParseTurn(a);
      ParseTurn(a + b);
      if 0 < size <= MAX_FRAME_SIZE && 4 + size <= |a| {
        var body, tail := a[4..4 + size], a[4 + size..];
        assert (a + b)[4..4 + size] == body && (a + b)[4 + size..] == tail + b;
        ParseInPortions(tail, b);
        Reassociate([body], Parse(tail).bodies, Parse(Parse(tail).rest + b).bodies);
      }
    }
  }

  lemma ShortParse(s: seq<Octet>)
    requires |s| < 4
    ensures Parse(s) == Received([], s, false)
  {
  }

  /** On any prefix of the bytes of some bodies the reader has a prefix of the bodies and is waiting,
      with the beginning of a frame left over. */
  lemma PrefixOfStream(bodies: seq<seq<Octet>>, a: seq<Octet>, b: seq<Octet>)
    requires forall k | 0 <= k < |bodies| :: Sendable(bodies[k]) && bodies[k] != []
    requires a + b == Stream(bodies)
    ensures var r := Parse(a);
            !r.bad && r.bodies <= bodies && (|r.rest| < 4 || |r.rest| < 4 + SizeOf(r.rest))
  {
    FramingRoundTrip(bodies);
    ParseInPortions(a, b);
    RestIsIncomplete(a);
  }

  lemma {:induction false} RestIsIncomplete(stream: seq<Octet>)
    ensures var r := Parse(stream);
            r.bad || |r.rest| < 4 || |r.rest| < 4 + SizeOf(r.rest)
    decreases |stream|
  {
    if |stream| >= 4 {
      var size := SizeOf(stream);
      if 0 < size <= MAX_FRAME_SIZE && 4 + size <= |stream| { RestIsIncomplete(stream[4 + size..]); }
    }
  }

  // ---------------------------------------------------------------------------------------------
  // The writer on the strand
  // ---------------------------------------------------------------------------------------------

  /** Where the writer coroutine is suspended. */
  datatype Phase<F> = NotStarted | Parked | Woken | Writing(frame: F) | Ended

  /** The state the strand protects, for one connection. `taken` is the history of frames taken off the
      queue, `written` of those whose write came to an end. */
  datatype Link<F> = Link(queue: seq<F>, phase: Phase<F>, stopping: bool, taken: seq<F>, written: seq<F>)

  /** What can run on the strand, one at a time: a posted `send`, the writer's first run, its wake-up,
      the end of a write (or its failure), the writer being cancelled because the reader failed, and
      `stop`. */
  datatype StrandStep<F> = Post(frame: F) | Begin | Wake | Written | WriteFailed | ReadFailed | Stop

  /** `write_loop` from the queue test to its next suspension. */
  function Drained<F>(l: Link<F>): Link<F> {
    if l.queue != [] then
      l.(queue := l.queue[1..], phase := Writing(l.queue[0]), taken := l.taken + [l.queue[0]])
    else if l.stopping then l.(phase := Ended)
    else l.(phase := Parked)
  }

  /** A cancelled wait still ends, and the writer goes on to the queue; the write it starts there is
      cancelled in its turn, and the frame is lost. */
  function Cancelled<F>(l: Link<F>): Link<F> {
    (if l.phase.Parked? || l.phase.Woken? then Drained(l) else l).(phase := Ended)
  }

  function Take<F>(l: Link<F>, t: StrandStep<F>): Link<F> {
    match t
    case Post(f) => l.(queue := l.queue + [f], phase := if l.phase.Parked? then Woken else l.phase)
    case Begin => if l.phase.NotStarted? then l.(phase := if l.stopping then Ended else Parked) else l
    case Wake => if l.phase.Woken? then Drained(l) else l
    case Written => if l.phase.Writing? then Drained(l.(written := l.written + [l.phase.frame])) else l
    case WriteFailed => if l.phase.Writing? then l.(phase := Ended) else l
    case ReadFailed => Cancelled(l)
    case Stop => l.(stopping := true)
  }

  function Turns<F>(l: Link<F>, ts: seq<StrandStep<F>>): Link<F> {
    if ts == [] then l else Take(Turns(l, ts[..|ts| - 1]), ts[|ts| - 1])
  }

  function Connected<F>(leftovers: seq<F>): Link<F> { Link(leftovers, NotStarted, false, [], []) }

  function Posted<F>(ts: seq<StrandStep<F>>): seq<F> {
    if ts == [] then []
    else Posted(ts[..|ts| - 1]) + if ts[|ts| - 1].Post? then [ts[|ts| - 1].frame] else []
  }

  /** A post has run after the writer armed its wait for the first time. */
  function PostedSinceArmed<F>(l: Link<F>, ts: seq<StrandStep<F>>): bool {
    ts != []
    && (PostedSinceArmed(l, ts[..|ts| - 1])
        || (ts[|ts| - 1].Post? && !Turns(l, ts[..|ts| - 1]).phase.NotStarted?))
  }

  /** At every moment the frames taken for writing, then the queue, are the left-overs and everything
      posted, in order. */
  lemma {:induction false} WriterIsFifo<F>(leftovers: seq<F>, ts: seq<StrandStep<F>>)
    ensures var l := Turns(Connected(leftovers), ts); l.taken + l.queue == leftovers + Posted(ts)
  {
    if ts != [] {
      var init, t := ts[..|ts| - 1], ts[|ts| - 1];
      var before := Turns(Connected(leftovers), init);
      WriterIsFifo(leftovers, init);
      if t.Post? {
        Reassociate(before.taken, before.queue, [t.frame]);
        Reassociate(leftovers, Posted(init), [t.frame]);
      } else if before.queue != [] {
        assert before.queue == [before.queue[0]] + before.queue[1..];
        Reassociate(before.taken, [before.queue[0]], before.queue[1..]);
      }
    }
  }

  /** No lost wake-up: a parked writer has frames in its queue exactly when the connection began with
      some and nothing has been posted since it armed its wait. */
  lemma {:induction false} ParkedWithFramesIff<F>(leftovers: seq<F>, ts: seq<StrandStep<F>>)
    ensures var l := Turns(Connected(leftovers), ts);
            && (!PostedSinceArmed(Connected(leftovers), ts) ==>
                  (l.taken == [] || l.phase.Ended?) && !l.phase.Woken? && !l.phase.Writing?)
            && (PostedSinceArmed(Connected(leftovers), ts) ==> !l.phase.NotStarted?)
            && (l.phase.Parked? ==>
                  (l.queue != [] <==> !PostedSinceArmed(Connected(leftovers), ts) && leftovers + Posted(ts) != []))
  {
    WriterIsFifo(leftovers, ts);
    if ts != [] {
      ParkedWithFramesIff(leftovers, ts[..|ts| - 1]);
    }
  }

  /** A connection loses at most one frame that it has taken: the last one, in a write that did not come
      to its end. */
  lemma {:induction false} TakenIsWritten<F>(leftovers: seq<F>, ts: seq<StrandStep<F>>)
    ensures var l := Turns(Connected(leftovers), ts);
            match l.phase
            case Writing(f) => l.taken == l.written + [f]
            case Ended => l.taken == l.written || (l.taken != [] && l.taken[..|l.taken| - 1] == l.written)
            case _ => l.taken == l.written
  {
    if ts != [] {
      TakenIsWritten(leftovers, ts[..|ts| - 1]);
    }
  }

  function WriteAll<F>(l: Link<F>, n: nat): Link<F> {
    if n == 0 then l else Take(WriteAll(l, n - 1), Written)
  }

  /** `frames` are the one being written and the queue behind it. */
  lemma {:induction false} WriterGoesOn<F>(l: Link<F>, frames: seq<F>, n: nat)
    requires l.phase.Writing? && frames == [l.phase.frame] + l.queue && n < |frames|
    ensures WriteAll(l, n) == Link(frames[n + 1..], Writing(frames[n]), l.stopping,
                                   l.taken + l.queue[..n], l.written + frames[..n])
  {
    if n > 0 {
      WriterGoesOn(l, frames, n - 1);
      hide Drained;
      assert l.queue[..n] == l.queue[..n - 1] + [l.queue[n - 1]] && frames[..n] == frames[..n - 1] + [frames[n - 1]];
      var r := WriteAll(l, n - 1);
      DrainTakesNext(r.(written := r.written + [frames[n - 1]]));
    }
  }

  lemma DrainTakesNext<F>(l: Link<F>)
    requires l.queue != []
    ensures Drained(l) == Link(l.queue[1..], Writing(l.queue[0]), l.stopping, l.taken + [l.queue[0]], l.written)
  {
  }

  /** A writing writer that is left alone writes the whole queue and parks, or ends if the client is
      stopping. */
  lemma WriterEmptiesQueue<F>(l: Link<F>)
    requires l.phase.Writing?
    ensures WriteAll(l, |l.queue| + 1)
            == Link([], if l.stopping then Ended else Parked, l.stopping, l.taken + l.queue,
                    l.written + ([l.phase.frame] + l.queue))
  {
    var n, frames := |l.queue|, [l.phase.frame] + l.queue;
    WriterGoesOn(l, frames, n);
    assert frames == frames[..n] + [frames[n]] && l.queue[..n] == l.queue;
    Reassociate(l.written, frames[..n], [frames[n]]);
  }

  function Writes<F>(n: nat): (ts: seq<StrandStep<F>>)
    ensures |ts| == n
  {
    if n == 0 then [] else Writes(n - 1) + [Written]
  }

  lemma {:induction false} WritesAreTurns<F>(l: Link<F>, n: nat)
    ensures Turns(l, Writes(n)) == WriteAll(l, n)
  {
    hide Take;
    if n > 0 {
      WritesAreTurns(l, n - 1);
      assert (Writes<F>(n - 1) + [Written])[..n - 1] == Writes(n - 1);
    }
  }

  lemma {:induction false} TurnsConcat<F>(l: Link<F>, xs: seq<StrandStep<F>>, ys: seq<StrandStep<F>>)
    ensures Turns(l, xs + ys) == Turns(Turns(l, xs), ys)
  {
    hide Take;
    if ys == [] {
      assert xs + ys == xs;
    } else {
      TurnsConcat(l, xs, ys[..|ys| - 1]);
      assert (xs + ys)[..|xs + ys| - 1] == xs + ys[..|ys| - 1];
    }
  }

  /** The turns that the writer takes when nothing else happens and every write comes to its end. */
  function Alone<F>(l: Link<F>): seq<StrandStep<F>> {
    match l.phase
    case Woken => [Wake] + Writes(|l.queue|)
    case Writing(_) => Writes(|l.queue| + 1)
    case _ => []
  }

  lemma {:induction false} WokenHasFrames<F>(leftovers: seq<F>, ts: seq<StrandStep<F>>)
    ensures var l := Turns(Connected(leftovers), ts); l.phase.Woken? ==> l.queue != []
  {
    if ts != [] { WokenHasFrames(leftovers, ts[..|ts| - 1]); }
  }

  /** A woken writer that is left alone writes the whole queue, in order, and parks, or ends if the client is
      stopping. */
  lemma WokenWriterWrites<F>(leftovers: seq<F>, ts: seq<StrandStep<F>>)
    requires Turns(Connected(leftovers), ts).phase.Woken?
    ensures var l := Turns(Connected(leftovers), ts);
            Turns(l, Alone(l)) == Link([], if l.stopping then Ended else Parked, l.stopping,
                                       l.taken + l.queue, l.written + l.queue)
  {
    var l := Turns(Connected(leftovers), ts);
    WokenHasFrames(leftovers, ts);
    var first, rest := l.queue[0], l.queue[1..];
    var w := Link(rest, Writing(first), l.stopping, l.taken + [first], l.written);
    hide Turns, Writes;
    TurnsConcat(l, [Wake], Writes(|l.queue|));
    OneTurn(l, Wake);
    assert Take(l, Wake) == w;
    WritesAreTurns(w, |l.queue|);
    WriterEmptiesQueue(w);
    assert l.queue == [first] + rest;
    Reassociate(l.taken, [first], rest);
  }

  lemma OneTurn<F>(l: Link<F>, t: StrandStep<F>)
    ensures Turns(l, [t]) == Take(l, t)
  {
    assert [t][..0] == [];
  }

  /** No frame is forgotten: once something has been posted after the writer armed its wait, the writer, left
      alone, writes everything that the connection began with and everything posted, in order. */
  lemma PostedIsWritten<F>(leftovers: seq<F>, ts: seq<StrandStep<F>>)
    requires PostedSinceArmed(Connected(leftovers), ts) && !Turns(Connected(leftovers), ts).phase.Ended?
    ensures var l := Turns(Connected(leftovers), ts);
            Turns(l, Alone(l)).written == leftovers + Posted(ts) && Turns(l, Alone(l)).queue == []
  {
    var l := Turns(Connected(leftovers), ts);
    WriterIsFifo(leftovers, ts);
    TakenIsWritten(leftovers, ts);
    ParkedWithFramesIff(leftovers, ts);
    match l.phase
    case Woken => WokenWriterWrites(leftovers, ts);
    case Writing(f) =>
      hide Take, PostedSinceArmed, Posted, Writes;
      WritesAreTurns(l, |l.queue| + 1);
      WriterEmptiesQueue(l);
      Reassociate(l.written, [f], l.queue);
    case Parked => assert l.taken + [] == l.taken;
    case _ =>
  }

  /** A connection that has ended takes no frame any more; what is posted stays in the queue. */
  lemma {:induction false} EndedIsFinal<F>(l: Link<F>, ts: seq<StrandStep<F>>)
    requires l.phase.Ended?
    ensures var r := Turns(l, ts);
            r.phase.Ended? && r.taken == l.taken && r.written == l.written && r.queue == l.queue + Posted(ts)
  {
    if ts == [] {
      assert l.queue + [] == l.queue;
    } else {
      EndedIsFinal(l, ts[..|ts| - 1]);
      if ts[|ts| - 1].Post? { Reassociate(l.queue, Posted(ts[..|ts| - 1]), [ts[|ts| - 1].frame]); }
    }
  }

  /** What ends it: a failed write, a failed read, and the first turn of a stopped client. A client that is not
      stopping arms its wait in its first turn. */
  lemma EndsWhen<F>(l: Link<F>)
    ensures Take(l, ReadFailed).phase.Ended?
    ensures l.phase.Writing? ==> Take(l, WriteFailed) == l.(phase := Ended)
    ensures l.phase.NotStarted? ==> Take(l, Begin) == l.(phase := if l.stopping then Ended else Parked)
  {
  }

  /** The queue after some connections; what one leaves behind the next one begins with. */
  function LeftBy<F>(connections: seq<seq<StrandStep<F>>>): seq<F> {
    if connections == [] then []
    else
      var init := connections[..|connections| - 1];
      Turns(Connected(LeftBy(init)), connections[|connections| - 1]).queue
  }

  function TakenBy<F>(connections: seq<seq<StrandStep<F>>>): seq<F> {
    if connections == [] then []
    else
      var init := connections[..|connections| - 1];
      TakenBy(init) + Turns(Connected(LeftBy(init)), connections[|connections| - 1]).taken
  }

  function PostedIn<F>(connections: seq<seq<StrandStep<F>>>): seq<F> {
    if connections == [] then []
    else PostedIn(connections[..|connections| - 1]) + Posted(connections[|connections| - 1])
  }

  /** Over any number of connections, however each of them ends, every posted frame is taken off the queue
      at most once and in order, and the others are still queued. (Of those taken each connection loses at
      most its last one, by `TakenIsWritten`.) */
  lemma {:induction false} FifoAcrossConnections<F>(connections: seq<seq<StrandStep<F>>>)
    ensures TakenBy(connections) + LeftBy(connections) == PostedIn(connections)
  {
    hide Turns, Posted;
    if connections != [] {
      var init, last := connections[..|connections| - 1], connections[|connections| - 1];
      FifoAcrossConnections(init);
      WriterIsFifo(LeftBy(init), last);
      var l := Turns(Connected(LeftBy(init)), last);
      Reassociate(TakenBy(init), l.taken, l.queue);
      Reassociate(TakenBy(init), LeftBy(init), Posted(last));
    }
  }

  // ---------------------------------------------------------------------------------------------
  // Reconnect backoff
  // ---------------------------------------------------------------------------------------------

  /** `reconnect_delay_s_`, `reconnect_attempt_`, `cumulative_wait_s_` */
  datatype Backoff = Backoff(delay: int, attempt: int, waited: int)

  const FRESH := Backoff(1, 1, 0)

  /** The connection attempt or the connection ended, and the wait after it is over. */
  function Retried(b: Backoff): Backoff {
    Backoff(Min(b.delay * 2, 60), b.attempt + 1, b.waited + b.delay)
  }

  function RetriedTimes(k: nat): Backoff {
    if k == 0 then FRESH else Retried(RetriedTimes(k - 1))
  }

  function Pow2(k: nat): nat { if k == 0 then 1 else 2 * Pow2(k - 1) }

  /** The waits double from one second to a minute and stay there. */
  lemma {:induction false} BackoffAfter(k: nat)
    ensures RetriedTimes(k) == if k < 6 then Backoff(Pow2(k), k + 1, Pow2(k) - 1)
                               else Backoff(60, k + 1, 63 + 60 * (k - 6))
  {
    if k > 0 {
      BackoffAfter(k - 1);
      assert Pow2(5) == 32 by { assert Pow2(3) == 8; }
      if k < 6 { PowersBelow(k - 1); }
    }
  }

  lemma PowersBelow(k: nat)
    requires k < 5
    ensures Pow2(k) <= 16
  {
    if k > 0 { PowersBelow(k - 1); }
  }

  /** true: the handshake succeeded; false: a connection or an attempt ended. */
  function AfterHistory(history: seq<bool>): Backoff {
    if history == [] then FRESH
    else if history[|history| - 1] then FRESH
    else Retried(AfterHistory(history[..|history| - 1]))
  }

  function LossesInARow(history: seq<bool>): nat {
    if history == [] || history[|history| - 1] then 0 else LossesInARow(history[..|history| - 1]) + 1
  }

  /** In every history the backoff depends only on the losses since the last success. */
  lemma {:induction false} BackoffDependsOnLosses(history: seq<bool>)
    ensures AfterHistory(history) == RetriedTimes(LossesInARow(history))
    ensures 1 <= AfterHistory(history).delay <= 60
  {
    BackoffAfter(LossesInARow(history));
    if LossesInARow(history) < 6 { SmallPowers(LossesInARow(history)); }
    if history != [] && !history[|history| - 1] {
      BackoffDependsOnLosses(history[..|history| - 1]);
    }
  }

  lemma SmallPowers(k: nat)
    requires k < 6
    ensures 1 <= Pow2(k) <= 32
  {
    if k > 0 { PowersBelow(k - 1); SmallPowers(k - 1); }
  }

  // ---------------------------------------------------------------------------------------------
  // The client as an object
  // ---------------------------------------------------------------------------------------------

  class NetClient {
    var sendQueue: seq<seq<Octet>>
    var writer: Phase<seq<Octet>>
    var stopping: bool
    var reconnectDelay: int
    var reconnectAttempt: int
    var cumulativeWait: int
    /** Frames taken off the queue for this connection, and those written */
    ghost var taken: seq<seq<Octet>>
    ghost var written: seq<seq<Octet>>

    ghost function State(): Link<seq<Octet>>
      reads this
    {
      Link(sendQueue, writer, stopping, taken, written)
    }

    function Reconnect(): Backoff
      reads this
    {
      Backoff(reconnectDelay, reconnectAttempt, cumulativeWait)
    }

    constructor ()
      ensures State() == Connected([]) && Reconnect() == FRESH
    {
      sendQueue, writer, stopping, taken, written := [], NotStarted, false, [], [];
      reconnectDelay, reconnectAttempt, cumulativeWait := 1, 1, 0;
    }

    /** The part of `send` in the caller's thread: the frame to post, or nothing if it is too large. */
    method Send(body: seq<Octet>) returns (frame: Option<seq<Octet>>)
      ensures frame == if |body| <= 65536 then Some(Frame(body)) else None
    {
      if |body| > MAX_FRAME_SIZE { return None; }
      var size := |body|;
      frame := Some([size / 0x100_0000 % 256, size / 0x1_0000 % 256, size / 0x100 % 256, size % 256] + body);
    }

    /** The part of `send` on the strand. */
    method OnPosted(frame: seq<Octet>)
      modifies this
      ensures State() == Take(old(State()), Post(frame)) && Reconnect() == old(Reconnect())
    {
      sendQueue := sendQueue + [frame];
      if writer.Parked? { writer := Woken; }
    }

    /** A turn of the writer's inner loop, up to its next suspension. */
    method DrainQueue()
      modifies this
      ensures State() == Drained(old(State())) && Reconnect() == old(Reconnect())
    {
      if sendQueue != [] {
        var frame := sendQueue[0];
        sendQueue := sendQueue[1..];
        taken := taken + [frame];
        writer := Writing(frame);
      } else if stopping {
        writer := Ended;
      } else {
        writer := Parked;
      }
    }

    method OnBegin()
      modifies this
      ensures State() == Take(old(State()), Begin) && Reconnect() == old(Reconnect())
    {
      if writer.NotStarted? { writer := if stopping then Ended else Parked; }
    }

    method OnWake()
      modifies this
      ensures State() == Take(old(State()), Wake) && Reconnect() == old(Reconnect())
    {
      if writer.Woken? { DrainQueue(); }
    }

    method OnWritten(failed: bool)
      modifies this
      ensures State() == Take(old(State()), if failed then WriteFailed else Written)
      ensures Reconnect() == old(Reconnect())
    {
      if writer.Writing? {
        if failed {
          writer := Ended;
        } else {
          written := written + [writer.frame];
          DrainQueue();
        }
      }
    }

    /** The reader has thrown, and the writer is cancelled. */
    method OnReadFailed()
      modifies this
      ensures State() == Take(old(State()), ReadFailed) && Reconnect() == old(Reconnect())
    {
      if writer.Parked? || writer.Woken? { DrainQueue(); }
      writer := Ended;
    }

    method RequestStop()
      modifies this
      ensures State() == Take(old(State()), Stop) && Reconnect() == old(Reconnect())
    {
      stopping := true;
    }

    /** After the handshake in `connect_once`. What the last connection left in the queue stays there. */
    method OnConnected()
      modifies this
      ensures Reconnect() == FRESH
      ensures State() == Connected(old(sendQueue)).(stopping := old(stopping))
    {
      reconnectDelay, reconnectAttempt, cumulativeWait := 1, 1, 0;
      writer, taken, written := NotStarted, [], [];
    }

    /** The end of one turn of `run`: the wait that was announced, and the next delay. */
    method AwaitReconnect() returns (wait: int)
      modifies this
      ensures wait == old(reconnectDelay)
      ensures Reconnect() == Retried(old(Reconnect())) && State() == old(State())
    {
      cumulativeWait := cumulativeWait + reconnectDelay;
      wait := reconnectDelay;
      reconnectAttempt := reconnectAttempt + 1;
      reconnectDelay := Min(reconnectDelay * 2, 60);
    }
  }
}
