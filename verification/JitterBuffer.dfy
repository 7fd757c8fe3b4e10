/** The reorder buffer for received audio: `JitterBuffer`. Frames are keyed by the 16-bit sequence
    number of RFC 3550 section 5.1 and accepted by a signed difference in the manner of RFC 1982
    section 3.2, but stored in numerical order. */
module JitterBuffer {
  import opened Seqs

  type Seq16 = x: nat | x < 0x10000

  const WINDOW := 16

  /** `static_cast<int16_t>(a - b)` */
  function SignedDiff(a: Seq16, b: Seq16): (d: int)
    ensures -0x8000 <= d < 0x8000
    ensures (d - (a - b)) % 0x10000 == 0
  {
    var d := (a - b) % 0x10000;
    if d >= 0x8000 then d - 0x10000 else d
  }

  function Succ(s: Seq16): Seq16 { (s + 1) % 0x10000 }

  predicate InWindow(seq_: Seq16, next: Seq16) {
    -WINDOW <= SignedDiff(seq_, next) <= 2 * WINDOW
  }

  // ---------------------------------------------------------------------------------------------
  // The buffer as a value
  // ---------------------------------------------------------------------------------------------

  datatype Buffer<T> = Buffer(frames: map<Seq16, T>, next: Seq16, primed: bool, target: int) {
    /** What holds between calls. */
    ghost predicate Valid() {
      |frames| <= WINDOW && (!primed ==> frames == map[] || |frames| < target)
    }
  }

  /** The key at which `std::map` iteration begins. */
  ghost predicate IsFirst<T>(frames: map<Seq16, T>, k: Seq16) {
    k in frames && forall j | j in frames :: k <= j
  }

  lemma {:induction false} FirstExists<T>(frames: map<Seq16, T>)
    requires frames != map[]
    ensures exists k :: IsFirst(frames, k)
    decreases |frames|
  {
    var some :| some in frames;
    RemoveOne(frames, some);
    var rest := frames - {some};
    if rest == map[] {
      assert frames.Keys == rest.Keys + {some};
      assert IsFirst(frames, some);
    } else {
      FirstExists(rest);
      var k :| IsFirst(rest, k);
      assert IsFirst(frames, if some < k then some else k);
    }
  }

  ghost function First<T>(frames: map<Seq16, T>): (k: Seq16)
    requires frames != map[]
    ensures IsFirst(frames, k)
  {
    FirstExists(frames);
    var k :| IsFirst(frames, k);
    k
  }

  lemma FirstIsUnique<T>(frames: map<Seq16, T>, k: Seq16)
    requires IsFirst(frames, k)
    ensures frames != map[] && First(frames) == k
  {
  }

  /** The frames after an insertion: the numerically first one goes if there is one too many. */
  ghost function Trimmed<T>(frames: map<Seq16, T>): map<Seq16, T> {
    if |frames| > WINDOW then frames - {First(frames)} else frames
  }

  ghost predicate Accepts<T>(b: Buffer<T>, s: Seq16) {
    b.primed ==> InWindow(s, b.next)
  }

  ghost function Pushed<T>(b: Buffer<T>, s: Seq16, pcm: T): Buffer<T> {
    if !Accepts(b, s) then b
    else
      var frames := Trimmed(b.frames[s := pcm]);
      if !b.primed && |frames| >= b.target && frames != map[] then Buffer(frames, First(frames), true, b.target)
      else b.(frames := frames)
  }

  function Popped<T>(b: Buffer<T>): Buffer<T> {
    if b.primed then b.(frames := b.frames - {b.next}, next := Succ(b.next)) else b
  }

  /** What a pop returns. */
  function Played<T>(b: Buffer<T>): Option<T> {
    if b.primed && b.next in b.frames then Some(b.frames[b.next]) else None
  }

  // ---------------------------------------------------------------------------------------------
  // The buffer as an object
  // ---------------------------------------------------------------------------------------------

  lemma RemoveOne<T>(frames: map<Seq16, T>, k: Seq16)
    requires k in frames
    ensures |frames - {k}| == |frames| - 1
  {
    assert (frames - {k}).Keys == frames.Keys - {k};
    assert frames.Keys == (frames.Keys - {k}) + {k};
  }

  lemma AddOne<T>(frames: map<Seq16, T>, k: Seq16, x: T)
    ensures |frames[k := x]| == |frames| + if k in frames then 0 else 1
  {
    assert frames[k := x].Keys == frames.Keys + {k};
    if k in frames { assert frames[k := x].Keys == frames.Keys; }
  }

  class JitterBuffer<T> {
    var frames: map<Seq16, T>
    var nextSeq: Seq16
    var primed: bool
    const targetDelay: int

    function State(): Buffer<T>
      reads this
    {
      Buffer(frames, nextSeq, primed, targetDelay)
    }

    ghost predicate Valid()
      reads this
    {
      State().Valid()
    }

    constructor (targetDelay: int)
      ensures State() == Buffer(map[], 0, false, targetDelay)
    {
      frames, nextSeq, primed := map[], 0, false;
      this.targetDelay := targetDelay;
    }

    /** The trimming loop of `push`. */
    method Trim()
      requires |frames| <= WINDOW + 1
      modifies this`frames
      ensures frames == Trimmed(old(frames)) && |frames| <= WINDOW
    {
      ghost var inserted := frames;
      while |frames| > WINDOW
        invariant (frames == inserted && |inserted| <= WINDOW + 1)
                  || (frames == Trimmed(inserted) && |frames| <= WINDOW)
      {
        FirstExists(frames);
        var begin :| begin in frames && forall j | j in frames :: begin <= j;
        FirstIsUnique(frames, begin);
        RemoveOne(frames, begin);
        frames := frames - {begin};
      }
    }

    method Push(s: Seq16, pcm: T)
      requires Valid()
      modifies this
      ensures State() == Pushed(old(State()), s, pcm)
      ensures Valid()
    {
      hide Trimmed;
      if primed {
        var diff := SignedDiff(s, nextSeq);
        if diff < -WINDOW || diff > WINDOW * 2 { return; }
      }
      AddOne(frames, s, pcm);
      TrimmedSize(frames, s, pcm);
      frames := frames[s := pcm];
      Trim();
      if !primed && |frames| >= targetDelay {
        FirstExists(frames);
        var begin :| begin in frames && forall j | j in frames :: begin <= j;
        FirstIsUnique(frames, begin);
        primed := true;
        nextSeq := begin;
      }
    }

    method Pop() returns (pcm: Option<T>)
      requires Valid()
      modifies this
      ensures Valid() && State() == Popped(old(State())) && pcm == Played(old(State()))
    {
      if !primed { return None; }
      var at := nextSeq;
      nextSeq := Succ(nextSeq);
      if at !in frames { return None; }
      pcm := Some(frames[at]);
      RemoveOne(frames, at);
      frames := frames - {at};
    }

    method Reset()
      modifies this
      ensures State() == Buffer(map[], 0, false, targetDelay)
    {
      frames, primed, nextSeq := map[], false, 0;
    }

    method BufferedCount() returns (n: nat)
      ensures n == |frames|
    {
      n := |frames|;
    }
  }

  // ---------------------------------------------------------------------------------------------
  // Runs
  // ---------------------------------------------------------------------------------------------

  datatype Op<T> = Push(s: Seq16, pcm: T) | Pop | Reset

  ghost function Step<T>(b: Buffer<T>, op: Op<T>): Buffer<T> {
    match op
    case Push(s, pcm) => Pushed(b, s, pcm)
    case Pop => Popped(b)
    case Reset => Buffer(map[], 0, false, b.target)
  }

  ghost function Run<T>(b: Buffer<T>, ops: seq<Op<T>>): Buffer<T> {
    if ops == [] then b else Step(Run(b, ops[..|ops| - 1]), ops[|ops| - 1])
  }

  lemma TrimmedSize<T>(frames: map<Seq16, T>, s: Seq16, pcm: T)
    requires |frames| <= WINDOW
    ensures 1 <= |Trimmed(frames[s := pcm])| <= WINDOW
    ensures |Trimmed(frames[s := pcm])| <= |frames[s := pcm]|
  {
    AddOne(frames, s, pcm);
    if |frames[s := pcm]| > WINDOW { RemoveOne(frames[s := pcm], First(frames[s := pcm])); }
  }

  lemma PopKeepsValid<T>(b: Buffer<T>)
    requires b.Valid()
    ensures Popped(b).Valid()
  {
    if b.next in b.frames { RemoveOne(b.frames, b.next); } else { assert b.frames - {b.next} == b.frames; }
  }

  lemma StepKeepsValid<T>(b: Buffer<T>, op: Op<T>)
    requires b.Valid()
    ensures Step(b, op).Valid() && Step(b, op).target == b.target
  {
    hide Trimmed, First;
    match op
    case Push(s, pcm) => TrimmedSize(b.frames, s, pcm);
    case Pop => PopKeepsValid(b);
    case Reset =>
  }

  /** Between calls there are never more than sixteen frames, in any run. */
  lemma {:induction false} RunStaysValid<T>(target: int, ops: seq<Op<T>>)
    ensures Run(Buffer(map[], 0, false, target), ops).Valid()
    ensures Run(Buffer(map[], 0, false, target), ops).target == target
  {
    hide Step;
    if ops != [] {
      RunStaysValid(target, ops[..|ops| - 1]);
      StepKeepsValid(Run(Buffer(map[], 0, false, target), ops[..|ops| - 1]), ops[|ops| - 1]);
    }
  }

  function Pops<T>(ops: seq<Op<T>>): nat {
    if ops == [] then 0 else Pops(ops[..|ops| - 1]) + if ops[|ops| - 1].Pop? then 1 else 0
  }

  lemma StepCountsUp<T>(b: Buffer<T>, op: Op<T>)
    requires b.primed && !op.Reset?
    ensures Step(b, op).primed && Step(b, op).next == if op.Pop? then Succ(b.next) else b.next
  {
    hide Trimmed, First;
  }

  lemma {:induction false} RunConcat<T>(b: Buffer<T>, xs: seq<Op<T>>, ys: seq<Op<T>>)
    ensures Run(b, xs + ys) == Run(Run(b, xs), ys)
  {
    hide Step;
    if ys == [] {
      assert xs + ys == xs;
    } else {
      RunConcat(b, xs, ys[..|ys| - 1]);
      assert (xs + ys)[..|xs + ys| - 1] == xs + ys[..|ys| - 1];
    }
  }

  /** `n` frames with consecutive numbers from `a` on. */
  function Stretch<T>(a: nat, n: nat, pcm: T): (m: map<Seq16, T>)
    requires a + n <= 0x10000
    ensures |m| == n
    ensures forall k :: k in m <==> a <= k < a + n
  {
    if n == 0 then map[]
    else
      var fewer := Stretch(a, n - 1, pcm);
      AddOne(fewer, a + n - 1, pcm);
      fewer[a + n - 1 := pcm]
  }

  function PushUp<T>(a: nat, n: nat, pcm: T): seq<Op<T>>
    requires a + n <= 0x10000
  {
    if n == 0 then [] else PushUp(a, n - 1, pcm) + [Push(a + n - 1, pcm)]
  }

  lemma RunSnoc<T>(b: Buffer<T>, ops: seq<Op<T>>, op: Op<T>)
    ensures Run(b, ops + [op]) == Step(Run(b, ops), op)
  {
    hide Step;
    assert (ops + [op])[..|ops|] == ops;
  }

  lemma PushToRoom<T>(b: Buffer<T>, s: Seq16, pcm: T)
    requires |b.frames| < WINDOW && Accepts(b, s)
    ensures var r := Pushed(b, s, pcm);
            (!b.primed && r.primed) || r == b.(frames := b.frames[s := pcm])
  {
    AddOne(b.frames, s, pcm);
    SmallIsNotTrimmed(b.frames[s := pcm]);
    hide Trimmed, First;
  }

  lemma PushUpStep<T>(b: Buffer<T>, before: Buffer<T>, a: nat, n: nat, pcm: T)
    requires b.frames == map[] && 0 < n <= WINDOW && a + n <= 0x10000
    requires b.primed ==> InWindow(a + n - 1, b.next)
    requires (!b.primed && before.primed) || before == b.(frames := Stretch(a, n - 1, pcm))
    ensures var r := Step(before, Push(a + n - 1, pcm));
            (!b.primed && r.primed) || r == b.(frames := Stretch(a, n, pcm))
  {
    hide Pushed, InWindow;
    if !b.primed && before.primed {
      StepCountsUp(before, Push(a + n - 1, pcm));
    } else {
      PushToRoom(before, a + n - 1, pcm);
    }
  }

  /** Up to sixteen frames in a row that an empty buffer accepts are all held, or begin to play. */
  lemma {:induction false} PushUpFills<T>(b: Buffer<T>, a: nat, n: nat, pcm: T)
    requires b.frames == map[] && n <= WINDOW && a + n <= 0x10000
    requires b.primed ==> forall k | a <= k < a + n :: InWindow(k, b.next)
    ensures var r := Run(b, PushUp(a, n, pcm));
            (!b.primed && r.primed) || r == b.(frames := Stretch(a, n, pcm))
  {
    hide Step, InWindow;
    if n == 0 {
      assert b.(frames := map[]) == b;
    } else {
      hide Run;
      PushUpFills(b, a, n - 1, pcm);
      RunSnoc(b, PushUp(a, n - 1, pcm), Push(a + n - 1, pcm));
      hide PushUp, Stretch;
      PushUpStep(b, Run(b, PushUp(a, n - 1, pcm)), a, n, pcm);
    }
  }

  lemma {:induction false} NoPrimingAbove<T>(target: int, ops: seq<Op<T>>)
    requires target > WINDOW
    ensures !Run(Buffer(map[], 0, false, target), ops).primed
  {
    if ops != [] {
      var init, op := ops[..|ops| - 1], ops[|ops| - 1];
      NoPrimingAbove(target, init);
      RunStaysValid(target, init);
      if op.Push? { TrimmedSize(Run(Buffer(map[], 0, false, target), init).frames, op.s, op.pcm); }
    }
  }

  /** Some run of a buffer begins to play exactly when its target is within the window. */
  lemma TargetReachableIff<T>(target: int, pcm: T)
    ensures (exists ops: seq<Op<T>> :: Run(Buffer(map[], 0, false, target), ops).primed) <==> target <= WINDOW
  {
    hide Run;
    var fresh_: Buffer<T> := Buffer(map[], 0, false, target);
    if target > WINDOW {
      forall ops: seq<Op<T>>
        ensures !Run(fresh_, ops).primed
      {
        NoPrimingAbove(target, ops);
      }
    } else {
      PushUpFills(fresh_, 0, WINDOW, pcm);
      RunStaysValid(target, PushUp(0, WINDOW, pcm));
      assert Run(fresh_, PushUp(0, WINDOW, pcm)).primed;
    }
  }

  /** The numbers that were pushed */
  function Numbers<T>(ops: seq<Op<T>>): set<Seq16> {
    if ops == [] then {}
    else Numbers(ops[..|ops| - 1]) + if ops[|ops| - 1].Push? then {ops[|ops| - 1].s} else {}
  }

  /** Without a reset, a buffer whose target is within the window begins to play exactly when that many
      different frames, and at least one, have come; until then it holds them all. */
  lemma {:induction false} PrimesExactlyWhen<T>(target: int, ops: seq<Op<T>>)
    requires target <= WINDOW && Reset !in ops
    ensures var r := Run(Buffer(map[], 0, false, target), ops);
            && (r.primed <==> Numbers(ops) != {} && |Numbers(ops)| >= target)
            && (!r.primed ==> r.frames.Keys == Numbers(ops))
  {
    if ops != [] {
      var init, op := ops[..|ops| - 1], ops[|ops| - 1];
      PrimesExactlyWhen(target, init);
      RunStaysValid(target, init);
      var before := Run(Buffer(map[], 0, false, target), init);
      hide Run;
      if before.primed {
        StepCountsUp(before, op);
        if op.Push? { MoreNumbers(Numbers(init), op.s); }
      } else if op.Push? {
        PushBeforePriming(before, op.s, op.pcm);
      }
    }
  }

  lemma MoreNumbers(numbers: set<Seq16>, s: Seq16)
    ensures |numbers + {s}| >= |numbers|
  {
    if s in numbers { assert numbers + {s} == numbers; }
  }

  lemma PushBeforePriming<T>(b: Buffer<T>, s: Seq16, pcm: T)
    requires b.Valid() && !b.primed && b.target <= WINDOW
    ensures var r := Pushed(b, s, pcm);
            r.frames.Keys == b.frames.Keys + {s} && (r.primed <==> |b.frames.Keys + {s}| >= b.target)
  {
    AddOne(b.frames, s, pcm);
    assert |b.frames[s := pcm]| <= WINDOW;
    SmallIsNotTrimmed(b.frames[s := pcm]);
    hide Trimmed, First;
    assert b.frames[s := pcm].Keys == b.frames.Keys + {s};
    assert |b.frames[s := pcm]| == |b.frames[s := pcm].Keys|;
  }

  /** The window: sixteen numbers back, and thirty-two ahead. */
  lemma WindowIs(s: Seq16, next: Seq16)
    ensures InWindow(s, next) <==> (s - next) % 0x10000 <= 32 || (s - next) % 0x10000 >= 0x10000 - 16
  {
  }

  /** Once primed, pops step through the sequence numbers one by one, wrapping around. */
  lemma {:induction false} PopsCountUp<T>(b: Buffer<T>, ops: seq<Op<T>>)
    requires b.primed && Reset !in ops
    ensures Run(b, ops).primed && Run(b, ops).next == (b.next + Pops(ops)) % 0x10000
  {
    hide Step;
    if ops != [] {
      PopsCountUp(b, ops[..|ops| - 1]);
      StepCountsUp(Run(b, ops[..|ops| - 1]), ops[|ops| - 1]);
    }
  }

  /** The payload of the last accepted push for `k` since the last reset. */
  ghost function LastAccepted<T>(b: Buffer<T>, ops: seq<Op<T>>, k: Seq16): Option<T> {
    if ops == [] then (if k in b.frames then Some(b.frames[k]) else None)
    else
      var init, op := ops[..|ops| - 1], ops[|ops| - 1];
      match op
      case Push(s, pcm) => if s == k && Accepts(Run(b, init), k) then Some(pcm) else LastAccepted(b, init, k)
      case Pop => LastAccepted(b, init, k)
      case Reset => None
  }

  lemma {:induction false} FramesAreLatest<T>(b: Buffer<T>, ops: seq<Op<T>>, k: Seq16)
    requires k in Run(b, ops).frames
    ensures LastAccepted(b, ops, k) == Some(Run(b, ops).frames[k])
  {
    if ops != [] {
      var init, op := ops[..|ops| - 1], ops[|ops| - 1];
      if k in Run(b, init).frames { FramesAreLatest(b, init, k); }
    }
  }

  /** The n-th pop after priming, counting from 0, plays the latest payload accepted for the n-th
      sequence number, or nothing. */
  lemma NthPop<T>(b: Buffer<T>, ops: seq<Op<T>>)
    requires b.primed && Reset !in ops
    ensures Played(Run(b, ops)).Some?
            ==> Played(Run(b, ops)) == LastAccepted(b, ops, (b.next + Pops(ops)) % 0x10000)
  {
    PopsCountUp(b, ops);
    var now := Run(b, ops);
    if now.next in now.frames { FramesAreLatest(b, ops, now.next); }
  }

  // ---------------------------------------------------------------------------------------------
  // Where every pushed payload ends
  // ---------------------------------------------------------------------------------------------

  datatype Ledger<T> = Ledger(returned: multiset<T>, overwritten: multiset<T>, trimmed: multiset<T>,
                              rejected: multiset<T>, cleared: multiset<T>)
  {
    ghost function Sum(): multiset<T> { returned + overwritten + trimmed + rejected + cleared }
  }

  /** The payloads of a map, with multiplicity. */
  ghost function Payloads<T>(frames: map<Seq16, T>): multiset<T>
    decreases |frames|
  {
    if frames == map[] then multiset{}
    else
      RemoveOne(frames, First(frames));
      Payloads(frames - {First(frames)}) + multiset{frames[First(frames)]}
  }

  lemma FirstWithout<T>(frames: map<Seq16, T>, k: Seq16)
    requires k in frames && k != First(frames)
    ensures var without := frames - {k};
            without != map[] && First(without) == First(frames)
            && without - {First(frames)} == frames - {First(frames)} - {k}
  {
    assert IsFirst(frames - {k}, First(frames));
    FirstIsUnique(frames - {k}, First(frames));
  }

  lemma {:induction false} PayloadsWithout<T>(frames: map<Seq16, T>, k: Seq16)
    requires k in frames
    ensures Payloads(frames) == Payloads(frames - {k}) + multiset{frames[k]}
    decreases |frames|
  {
    var f := First(frames);
    if k != f {
      FirstWithout(frames, k);
      hide First;
      RemoveOne(frames, f);
      RemoveOne(frames, k);
      PayloadsWithout(frames - {f}, k);
    }
  }

  ghost function Booked<T>(l: Ledger<T>, b: Buffer<T>, op: Op<T>): Ledger<T> {
    match op
    case Push(s, pcm) =>
      if !Accepts(b, s) then l.(rejected := l.rejected + multiset{pcm})
      else
        var inserted := b.frames[s := pcm];
        l.(overwritten := if s in b.frames then l.overwritten + multiset{b.frames[s]} else l.overwritten,
           trimmed := if |inserted| > WINDOW then l.trimmed + multiset{inserted[First(inserted)]} else l.trimmed)
    case Pop =>
      if Played(b).Some? then l.(returned := l.returned + multiset{Played(b).value}) else l
    case Reset => l.(cleared := l.cleared + Payloads(b.frames))
  }

  ghost function Account<T>(b: Buffer<T>, ops: seq<Op<T>>): Ledger<T> {
    if ops == [] then Ledger(multiset{}, multiset{}, multiset{}, multiset{}, multiset{})
    else Booked(Account(b, ops[..|ops| - 1]), Run(b, ops[..|ops| - 1]), ops[|ops| - 1])
  }

  function PushedPayloads<T>(ops: seq<Op<T>>): multiset<T> {
    if ops == [] then multiset{}
    else
      var op := ops[|ops| - 1];
      PushedPayloads(ops[..|ops| - 1]) + if op.Push? then multiset{op.pcm} else multiset{}
  }

  lemma WithoutInserted<T>(frames: map<Seq16, T>, s: Seq16, pcm: T)
    ensures frames[s := pcm] - {s} == frames - {s}
  {
  }

  lemma InsertedPayloads<T>(frames: map<Seq16, T>, s: Seq16, pcm: T)
    ensures Payloads(frames[s := pcm]) + (if s in frames then multiset{frames[s]} else multiset{})
            == Payloads(frames) + multiset{pcm}
  {
    hide Payloads;
    WithoutInserted(frames, s, pcm);
    PayloadsWithout(frames[s := pcm], s);
    if s in frames { PayloadsWithout(frames, s); } else { assert frames - {s} == frames; }
  }

  lemma BookPush<T>(b: Buffer<T>, s: Seq16, pcm: T, l: Ledger<T>)
    requires Accepts(b, s)
    ensures var inserted := b.frames[s := pcm];
            Booked(l, b, Push(s, pcm)).Sum() == l.Sum()
              + (if s in b.frames then multiset{b.frames[s]} else multiset{})
              + (if |inserted| > WINDOW then multiset{inserted[First(inserted)]} else multiset{})
  {
    hide First, Accepts;
  }

  lemma TrimmedPayloads<T>(frames: map<Seq16, T>)
    ensures Payloads(frames)
            == Payloads(Trimmed(frames)) + if |frames| > WINDOW then multiset{frames[First(frames)]} else multiset{}
  {
    if |frames| > WINDOW { PayloadsWithout(frames, First(frames)); }
  }

  lemma PushBalances<T>(b: Buffer<T>, s: Seq16, pcm: T, l: Ledger<T>)
    requires Accepts(b, s)
    ensures Booked(l, b, Push(s, pcm)).Sum() + Payloads(Pushed(b, s, pcm).frames)
            == l.Sum() + Payloads(b.frames) + multiset{pcm}
  {
    hide Payloads, Trimmed, Booked, Accepts;
    InsertedPayloads(b.frames, s, pcm);
    TrimmedPayloads(b.frames[s := pcm]);
    BookPush(b, s, pcm, l);
    assert Pushed(b, s, pcm).frames == Trimmed(b.frames[s := pcm]);
    var inserted := b.frames[s := pcm];
    Balance(l.Sum(), if s in b.frames then multiset{b.frames[s]} else multiset{},
            if |inserted| > WINDOW then multiset{inserted[First(inserted)]} else multiset{},
            Payloads(inserted), Payloads(Trimmed(inserted)), Payloads(b.frames), multiset{pcm});
  }

  lemma Balance<T>(sum: multiset<T>, over: multiset<T>, trim: multiset<T>,
                   inserted: multiset<T>, kept: multiset<T>, before: multiset<T>, pushed: multiset<T>)
    requires inserted + over == before + pushed && inserted == kept + trim
    ensures sum + over + trim + kept == sum + before + pushed
  {
    assert sum + over + trim + kept == sum + (kept + trim + over);
  }

  lemma StepBalances<T>(b: Buffer<T>, op: Op<T>, l: Ledger<T>)
    ensures Booked(l, b, op).Sum() + Payloads(Step(b, op).frames)
            == l.Sum() + Payloads(b.frames) + if op.Push? then multiset{op.pcm} else multiset{}
  {
    hide Payloads, First, Trimmed, Accepts;
    match op
    case Push(s, pcm) =>
      if Accepts(b, s) {
        PushBalances(b, s, pcm, l);
      } else {
        assert Booked(l, b, op).Sum() == l.Sum() + multiset{pcm};
      }
    case Pop => PopBalances(b, l);
    case Reset =>
      NoPayloads<T>();
      assert Booked(l, b, op).Sum() == l.Sum() + Payloads(b.frames);
  }

  lemma PopBalances<T>(b: Buffer<T>, l: Ledger<T>)
    ensures Booked(l, b, Pop).Sum() + Payloads(Popped(b).frames) == l.Sum() + Payloads(b.frames)
  {
    hide Payloads;
    if Played(b).Some? {
      PayloadsWithout(b.frames, b.next);
      assert Booked(l, b, Pop).Sum() == l.Sum() + multiset{b.frames[b.next]};
    } else {
      assert b.primed ==> b.frames - {b.next} == b.frames;
    }
  }

  lemma NoPayloads<T>()
    ensures var none: map<Seq16, T> := map[]; Payloads(none) == multiset{}
  {
  }

  /** In every run each pushed payload is returned, overwritten, trimmed, rejected, cleared or still
      buffered, and exactly one of these. */
  lemma {:induction false} PayloadsConserved<T>(target: int, ops: seq<Op<T>>)
    ensures var b := Buffer(map[], 0, false, target);
            Account(b, ops).Sum() + Payloads(Run(b, ops).frames) == PushedPayloads(ops)
  {
    if ops != [] {
      var b, init, op := Buffer(map[], 0, false, target), ops[..|ops| - 1], ops[|ops| - 1];
      PayloadsConserved(target, init);
      hide Booked, Step, Payloads;
      StepBalances(Run(b, init), op, Account(b, init));
    }
  }

  // ---------------------------------------------------------------------------------------------
  // Within one epoch: an unbounded playout buffer
  // ---------------------------------------------------------------------------------------------

  /** The buffer one would like to have: it forgets nothing that is still to be played. */
  datatype Ideal<T> = Ideal(slots: map<Seq16, T>, next: Seq16)

  function IdealStep<T>(i: Ideal<T>, op: Op<T>): Ideal<T>
    requires !op.Reset?
  {
    match op
    case Push(s, pcm) => if i.next <= s <= i.next + 2 * WINDOW then i.(slots := i.slots[s := pcm]) else i
    case Pop => Ideal(i.slots - {i.next}, Succ(i.next))
  }

  function IdealPlayed<T>(i: Ideal<T>): Option<T> {
    if i.next in i.slots then Some(i.slots[i.next]) else None
  }

  /** The step stays inside one 16-bit epoch and leaves at most sixteen frames to be played. */
  predicate Calm<T>(i: Ideal<T>, op: Op<T>) {
    match op
    case Push(s, pcm) =>
      && (InWindow(s, i.next) ==> -WINDOW <= s - i.next <= 2 * WINDOW)
      && |IdealStep(i, op).slots| <= WINDOW
    case Pop => i.next < 0xFFFF
    case Reset => false
  }

  predicate AllCalm<T>(i: Ideal<T>, ops: seq<Op<T>>)
    decreases |ops|
  {
    ops == [] || (Calm(i, ops[0]) && AllCalm(IdealStep(i, ops[0]), ops[1..]))
  }

  /** What the pops of a run return. */
  ghost function Outputs<T>(b: Buffer<T>, ops: seq<Op<T>>): seq<Option<T>>
    decreases |ops|
  {
    if ops == [] then []
    else (if ops[0].Pop? then [Played(b)] else []) + Outputs(Step(b, ops[0]), ops[1..])
  }

  function IdealOutputs<T>(i: Ideal<T>, ops: seq<Op<T>>): seq<Option<T>>
    requires AllCalm(i, ops)
    decreases |ops|
  {
    if ops == [] then []
    else (if ops[0].Pop? then [IdealPlayed(i)] else []) + IdealOutputs(IdealStep(i, ops[0]), ops[1..])
  }

  /** The frames that are still to be played. */
  function Live<T>(frames: map<Seq16, T>, next: Seq16): map<Seq16, T> {
    map k | k in frames && next <= k :: frames[k]
  }

  function IdealOf<T>(b: Buffer<T>): Ideal<T> { Ideal(Live(b.frames, b.next), b.next) }

  /** With at most sixteen live frames, the numerically first of seventeen is stale. */
  lemma TrimTakesStale<T>(frames: map<Seq16, T>, next: Seq16)
    requires |frames| > WINDOW && |Live(frames, next)| <= WINDOW
    ensures First(frames) < next
    ensures Live(Trimmed(frames), next) == Live(frames, next)
  {
    if next <= First(frames) {
      AllLive(frames, next);
      assert false;
    }
  }

  lemma AllLive<T>(frames: map<Seq16, T>, next: Seq16)
    requires forall k | k in frames :: next <= k
    ensures Live(frames, next) == frames
  {
  }

  lemma SignedDiffInEpoch(s: Seq16, next: Seq16)
    requires -WINDOW <= s - next <= 2 * WINDOW
    ensures SignedDiff(s, next) == s - next
  {
  }

  lemma CalmPushRefines<T>(b: Buffer<T>, s: Seq16, pcm: T)
    requires b.Valid() && b.primed && Calm(IdealOf(b), Push(s, pcm))
    ensures IdealOf(Pushed(b, s, pcm)) == IdealStep(IdealOf(b), Push(s, pcm))
  {
    hide SignedDiff, First, Trimmed;
    if -WINDOW <= s - b.next <= 2 * WINDOW { SignedDiffInEpoch(s, b.next); }
    if InWindow(s, b.next) {
      var inserted := b.frames[s := pcm];
      assert Live(inserted, b.next) == IdealStep(IdealOf(b), Push(s, pcm)).slots;
      TrimKeepsLive(inserted, b.next);
    }
  }

  lemma TrimKeepsLive<T>(frames: map<Seq16, T>, next: Seq16)
    requires |Live(frames, next)| <= WINDOW
    ensures Live(Trimmed(frames), next) == Live(frames, next)
  {
    if |frames| > WINDOW { TrimTakesStale(frames, next); }
  }

  lemma SuccInEpoch(next: Seq16)
    requires next < 0xFFFF
    ensures Succ(next) == next + 1
  {
  }

  lemma CalmStepRefines<T>(b: Buffer<T>, op: Op<T>)
    requires b.Valid() && b.primed && Calm(IdealOf(b), op)
    ensures Step(b, op).Valid() && Step(b, op).primed && IdealOf(Step(b, op)) == IdealStep(IdealOf(b), op)
    ensures Played(b) == IdealPlayed(IdealOf(b))
  {
    StepKeepsValid(b, op);
    StepCountsUp(b, op);
    hide Pushed, InWindow, Succ;
    if op.Push? {
      CalmPushRefines(b, op.s, op.pcm);
    } else {
      SuccInEpoch(b.next);
      assert Live(b.frames - {b.next}, Succ(b.next)) == Live(b.frames, b.next) - {b.next};
    }
  }

  /** While a run is calm, the bounded buffer plays exactly what the unbounded one plays. */
  lemma {:induction false} CalmRunRefines<T>(b: Buffer<T>, ops: seq<Op<T>>)
    requires b.Valid() && b.primed && AllCalm(IdealOf(b), ops)
    ensures Outputs(b, ops) == IdealOutputs(IdealOf(b), ops)
    decreases |ops|
  {
    if ops != [] {
      CalmStepRefines(b, ops[0]);
      CalmRunRefines(Step(b, ops[0]), ops[1..]);
    }
  }

  /** In the unbounded buffer a frame waits for its slot. */
  lemma {:induction false} IdealPlaysInSlot<T>(i: Ideal<T>, ops: seq<Op<T>>, s: Seq16)
    requires AllCalm(i, ops) && i.next <= s && s in i.slots
    requires forall k | 0 <= k < |ops| :: ops[k].Push? ==> ops[k].s != s
    requires |IdealOutputs(i, ops)| > s - i.next
    ensures IdealOutputs(i, ops)[s - i.next] == Some(i.slots[s])
    decreases |ops|
  {
    var op, rest := ops[0], ops[1..];
    forall k | 0 <= k < |rest|
      ensures rest[k].Push? ==> rest[k].s != s
    {
      assert rest[k] == ops[k + 1];
    }
    if op.Pop? && i.next == s {
    } else {
      assert op.Push? ==> ops[0].s != s;
      IdealPlaysInSlot(IdealStep(i, op), rest, s);
    }
  }

  /** Lossless playout: a frame accepted before its slot is returned by the pop for its slot, once the
      run has got that far,
      as long as the run stays in one epoch with at most sixteen live frames. */
  lemma FramePlaysInItsSlot<T>(b: Buffer<T>, s: Seq16, pcm: T, ops: seq<Op<T>>)
    requires b.Valid() && b.primed && b.next <= s && InWindow(s, b.next)
    requires AllCalm(IdealOf(b), [Push(s, pcm)] + ops)
    requires forall k | 0 <= k < |ops| :: ops[k].Push? ==> ops[k].s != s
    requires |Outputs(Pushed(b, s, pcm), ops)| > s - b.next
    ensures Outputs(Pushed(b, s, pcm), ops)[s - b.next] == Some(pcm)
  {
    CalmFront(IdealOf(b), Push(s, pcm), ops);
    CalmFrameIsKept(b, s, pcm);
    hide Pushed, IdealOf, IdealStep, Outputs, IdealOutputs, AllCalm, InWindow, Calm;
    CalmRunRefines(Pushed(b, s, pcm), ops);
    IdealPlaysInSlot(IdealOf(Pushed(b, s, pcm)), ops, s);
  }

  lemma CalmFront<T>(i: Ideal<T>, op: Op<T>, ops: seq<Op<T>>)
    requires AllCalm(i, [op] + ops)
    ensures Calm(i, op) && AllCalm(IdealStep(i, op), ops)
  {
    assert ([op] + ops)[1..] == ops;
  }

  lemma CalmFrameIsKept<T>(b: Buffer<T>, s: Seq16, pcm: T)
    requires b.Valid() && b.primed && Calm(IdealOf(b), Push(s, pcm)) && b.next <= s && InWindow(s, b.next)
    ensures var r := Pushed(b, s, pcm);
            && r.Valid() && r.primed && IdealOf(r) == IdealStep(IdealOf(b), Push(s, pcm))
            && IdealOf(r).next == b.next && s in IdealOf(r).slots && IdealOf(r).slots[s] == pcm
  {
    CalmStepRefines(b, Push(s, pcm));
    hide Pushed, Live, SignedDiff;
  }

  // ---------------------------------------------------------------------------------------------
  // What becomes of a held frame
  // ---------------------------------------------------------------------------------------------

  /** The push makes room by throwing frame `k` away. */
  ghost predicate Trims<T>(b: Buffer<T>, op: Op<T>, k: Seq16) {
    op.Push? && Accepts(b, op.s)
    && var inserted := b.frames[op.s := op.pcm]; |inserted| > WINDOW && First(inserted) == k
  }

  ghost predicate NeverTrims<T>(b: Buffer<T>, ops: seq<Op<T>>, k: Seq16) {
    forall j | 0 <= j < |ops| :: !Trims(Run(b, ops[..j]), ops[j], k)
  }

  lemma NeverTrimsSnoc<T>(b: Buffer<T>, ops: seq<Op<T>>, k: Seq16)
    requires ops != []
    ensures var n := |ops| - 1;
            NeverTrims(b, ops, k) <==> NeverTrims(b, ops[..n], k) && !Trims(Run(b, ops[..n]), ops[n], k)
  {
    hide Trims, Run;
    assert forall j | 0 <= j < |ops| - 1 :: ops[..|ops| - 1][..j] == ops[..j];
  }

  lemma StepHolds<T>(b: Buffer<T>, op: Op<T>, k: Seq16)
    requires b.primed && !op.Reset? && (op.Push? ==> op.s != k) && (op.Pop? ==> b.next != k)
    ensures var r := Step(b, op);
            (k in r.frames <==> k in b.frames && !Trims(b, op, k)) && (k in r.frames ==> r.frames[k] == b.frames[k])
  {
    hide First;
  }

  /** The slot of number `k`, counted in pops. */
  function Slot(k: Seq16, next: Seq16): nat { (k - next) % 0x10000 }

  lemma SlotAhead(k: Seq16, next: Seq16)
    requires next <= k
    ensures Slot(k, next) == k - next
  {
  }

  lemma SlotIsReached(k: Seq16, next: Seq16, n: nat)
    requires n <= Slot(k, next)
    ensures (next + n) % 0x10000 == k <==> n == Slot(k, next)
  {
    assert Slot(k, next) == if k >= next then k - next else k - next + 0x10000;
  }

  lemma NextInSlot<T>(b: Buffer<T>, k: Seq16, ops: seq<Op<T>>)
    requires b.primed && Reset !in ops && Pops(ops) <= Slot(k, b.next)
    ensures Run(b, ops).primed && (Run(b, ops).next == k <==> Pops(ops) == Slot(k, b.next))
  {
    hide Run, Slot, Pops;
    PopsCountUp(b, ops);
    SlotIsReached(k, b.next, Pops(ops));
  }

  lemma {:induction false} HeldUntilTrimmed<T>(b: Buffer<T>, k: Seq16, ops: seq<Op<T>>)
    requires b.primed && k in b.frames && Reset !in ops && Pops(ops) <= Slot(k, b.next)
    requires forall j | 0 <= j < |ops| :: ops[j].Push? ==> ops[j].s != k
    ensures var r := Run(b, ops);
            (k in r.frames <==> NeverTrims(b, ops, k)) && (k in r.frames ==> r.frames[k] == b.frames[k])
  {
    hide Step, Trims, Slot;
    if ops != [] {
      hide NeverTrims;
      var init, op := ops[..|ops| - 1], ops[|ops| - 1];
      HeldUntilTrimmed(b, k, init);
      NeverTrimsSnoc(b, ops, k);
      NextInSlot(b, k, init);
      StepHolds(Run(b, init), op, k);
    }
  }

  /** A held frame that is not replaced is played in its slot exactly when no push before that throws it
      away, however far off the slot is. */
  lemma HeldFramePlaysIff<T>(b: Buffer<T>, k: Seq16, ops: seq<Op<T>>)
    requires b.primed && k in b.frames && Reset !in ops && Pops(ops) == Slot(k, b.next)
    requires forall j | 0 <= j < |ops| :: ops[j].Push? ==> ops[j].s != k
    ensures Played(Run(b, ops)) == Some(b.frames[k]) <==> NeverTrims(b, ops, k)
  {
    hide Run, NeverTrims, Slot, Pops;
    HeldUntilTrimmed(b, k, ops);
    NextInSlot(b, k, ops);
  }

  function PopTimes<T>(n: nat): (ops: seq<Op<T>>)
    ensures |ops| == n == Pops(ops) && forall j | 0 <= j < n :: ops[j] == Pop
  {
    if n == 0 then [] else
      assert (PopTimes<T>(n - 1) + [Pop])[..n - 1] == PopTimes(n - 1);
      PopTimes(n - 1) + [Pop]
  }

  // ---------------------------------------------------------------------------------------------
  // Across the wrap
  // ---------------------------------------------------------------------------------------------

  /** A frame that is not before `next`, by the signed difference that accepts frames. */
  predicate IsLive(k: Seq16, next: Seq16) { SignedDiff(k, next) >= 0 }

  /** A push throws a live frame away exactly when there is one frame too many and the numerically
      first one is live. */
  lemma PushLosesLiveIff<T>(b: Buffer<T>, s: Seq16, pcm: T)
    requires b.Valid() && b.primed && InWindow(s, b.next)
    ensures var inserted := b.frames[s := pcm];
            (exists k :: k in inserted && IsLive(k, b.next) && k !in Pushed(b, s, pcm).frames)
            <==> (|inserted| > WINDOW && IsLive(First(inserted), b.next))
  {
    var inserted := b.frames[s := pcm];
    if |inserted| > WINDOW && IsLive(First(inserted), b.next) {
      assert First(inserted) in inserted && First(inserted) !in Pushed(b, s, pcm).frames;
    }
  }

  /** Two frames, played, and sixteen late ones */
  function LateFrames<T>(pcm: T): seq<Op<T>> {
    [Push(65533, pcm), Push(65534, pcm), Pop, Pop] + PushUp(65519, 16, pcm)
  }

  lemma RunOfLateFrames<T>(pcm: T)
    ensures Run(Buffer(map[], 0, false, 2), LateFrames(pcm)) == Buffer(Stretch(65519, 16, pcm), 65535, true, 2)
  {
    hide Run, PushUp, Stretch, InWindow;
    RunConcat(Buffer(map[], 0, false, 2), [Push(65533, pcm), Push(65534, pcm), Pop, Pop], PushUp(65519, 16, pcm));
    TwoFramesPlayed(pcm);
    LateButInWindow();
    PushUpFills(Buffer(map[], 65535, true, 2), 65519, 16, pcm);
  }

  /** Behind the wrap the newest frame comes first numerically. A run that it happens in: with sixteen
      stale frames held, the one live frame is the one that is trimmed. */
  lemma WrapLosesTheLiveFrame<T>(pcm: T)
    ensures var b := Run(Buffer(map[], 0, false, 2), LateFrames(pcm));
            b.primed && (forall k | k in b.frames :: !IsLive(k, b.next))
            && IsLive(0, b.next) && Accepts(b, 0) && 0 !in Pushed(b, 0, pcm).frames
  {
    RunOfLateFrames(pcm);
    hide Run, LateFrames, Stretch, InWindow, IsLive, Pushed;
    LateButInWindow();
    FullDropsZero(Run(Buffer(map[], 0, false, 2), LateFrames(pcm)), pcm);
  }

  /** An accepted frame that is not held yet is lost at once exactly when sixteen are held, all with higher
      numbers; then nothing changes at all. */
  lemma PushIsLostIff<T>(b: Buffer<T>, s: Seq16, pcm: T)
    requires b.Valid() && b.primed && Accepts(b, s) && s !in b.frames
    ensures s !in Pushed(b, s, pcm).frames <==> |b.frames| == WINDOW && forall k | k in b.frames :: s < k
    ensures s !in Pushed(b, s, pcm).frames ==> Pushed(b, s, pcm) == b
  {
    var inserted := b.frames[s := pcm];
    AddOne(b.frames, s, pcm);
    if forall k | k in b.frames :: s < k {
      assert IsFirst(inserted, s);
      FirstIsUnique(inserted, s);
    }
    assert inserted - {s} == b.frames;
  }

  lemma OutputsTurn<T>(b: Buffer<T>, ops: seq<Op<T>>)
    requires ops != []
    ensures Outputs(b, ops) == (if ops[0].Pop? then [Played(b)] else []) + Outputs(Step(b, ops[0]), ops[1..])
  {
  }

  /** The buffer is full, and nothing it holds has a number below `m`. */
  ghost predicate FullAbove<T>(b: Buffer<T>, m: nat) {
    b.Valid() && b.primed && |b.frames| == WINDOW && forall k | k in b.frames :: m <= k
  }

  lemma SilentPop<T>(b: Buffer<T>, m: nat)
    requires FullAbove(b, m) && b.next < m
    ensures b.next + 1 < 0x10000
    ensures Played(b) == None && Popped(b) == b.(next := b.next + 1) && FullAbove(Popped(b), m)
  {
    assert b.frames - {b.next} == b.frames;
    assert b.frames != map[];
    var k :| k in b.frames;
  }

  lemma SilentPush<T>(b: Buffer<T>, m: nat, s: Seq16, pcm: T)
    requires FullAbove(b, m) && s < m
    ensures Pushed(b, s, pcm) == b
  {
    if Accepts(b, s) { PushIsLostIff(b, s, pcm); }
  }

  ghost predicate PushesBelow<T>(ops: seq<Op<T>>, m: nat) {
    Reset !in ops && forall j | 0 <= j < |ops| :: ops[j].Push? ==> ops[j].s < m
  }

  ghost predicate SilentFor<T>(outputs: seq<Option<T>>, n: int) {
    forall j | 0 <= j < |outputs| && j < n :: outputs[j] == None
  }

  lemma SilentCons<T>(outputs: seq<Option<T>>, n: int)
    requires SilentFor(outputs, n - 1)
    ensures SilentFor([None] + outputs, n)
  {
  }

  /** Sixteen held frames silence the buffer up to the first of them: while all that comes has lower
      numbers, every pop before that returns nothing. */
  lemma {:induction false} FullBufferIsSilent<T>(b: Buffer<T>, m: nat, ops: seq<Op<T>>)
    requires FullAbove(b, m) && PushesBelow(ops, m)
    ensures SilentFor(Outputs(b, ops), m - b.next)
    decreases |ops|
  {
    if ops != [] && b.next < m {
      var op, rest := ops[0], ops[1..];
      OutputsTurn(b, ops);
      assert PushesBelow(rest, m) && !op.Reset? && (op.Push? ==> op.s < m);
      hide Outputs, PushesBelow, Pushed, Popped, Played, FullAbove, SilentFor;
      if op.Push? {
        SilentPush(b, m, op.s, op.pcm);
        FullBufferIsSilent(b, m, rest);
        assert Outputs(b, ops) == Outputs(b, rest);
      } else {
        SilentPop(b, m);
        FullBufferIsSilent(Popped(b), m, rest);
        SilentCons(Outputs(Popped(b), rest), m - b.next);
      }
    }
  }

  lemma StretchIsFull<T>(pcm: T)
    ensures var b := Buffer(Stretch(65519, 16, pcm), 65535, true, 2);
            Popped(b) == b.(next := 0) && FullAbove(b.(next := 0), 65519)
  {
    hide Stretch;
    assert Stretch(65519, 16, pcm) - {65535} == Stretch(65519, 16, pcm);
  }

  /** So the run above goes on: behind the wrap nothing is played for 65519 slots, whatever comes for
      them. */
  lemma SilenceBehindTheWrap<T>(pcm: T, ops: seq<Op<T>>)
    requires PushesBelow(ops, 65519)
    ensures var b := Run(Buffer(map[], 0, false, 2), LateFrames(pcm) + [Pop]);
            b.next == 0 && SilentFor(Outputs(b, ops), 65519)
  {
    hide Run, LateFrames, PushUp, Stretch, PushesBelow, SilentFor, Outputs, Popped, Pushed, FullAbove;
    RunSnoc(Buffer(map[], 0, false, 2), LateFrames(pcm), Pop);
    RunOfLateFrames(pcm);
    StretchIsFull(pcm);
    FullBufferIsSilent(Buffer(Stretch(65519, 16, pcm), 0, true, 2), 65519, ops);
  }

  lemma LateButInWindow()
    ensures forall k: Seq16 | 65519 <= k < 65535 :: InWindow(k, 65535) && !IsLive(k, 65535)
    ensures InWindow(0, 65535) && IsLive(0, 65535)
  {
  }

  lemma TwoFramesPlayed<T>(pcm: T)
    ensures Run(Buffer(map[], 0, false, 2), [Push(65533, pcm), Push(65534, pcm), Pop, Pop])
            == Buffer(map[], 65535, true, 2)
  {
    hide Pushed, Run;
    var fresh_: Buffer<T> := Buffer(map[], 0, false, 2);
    var pushes: seq<Op<T>>, pops: seq<Op<T>> := [Push(65533, pcm), Push(65534, pcm)], [Pop, Pop];
    assert [Push(65533, pcm), Push(65534, pcm), Pop, Pop] == pushes + pops;
    RunConcat(fresh_, pushes, pops);
    TwoFramesPrime(65533, 65534, pcm, pcm);
    RunTwo(fresh_, pushes[0], pushes[1]);
    var b := Buffer(map[65533 := pcm, 65534 := pcm], 65533, true, 2);
    assert Run(fresh_, pushes) == b;
    RunTwo(b, pops[0], pops[1]);
    PopBoth(pcm);
  }

  lemma PopBoth<T>(pcm: T)
    ensures Popped(Popped(Buffer(map[65533 := pcm, 65534 := pcm], 65533, true, 2))) == Buffer(map[], 65535, true, 2)
  {
    var held: map<Seq16, T> := map[65533 := pcm, 65534 := pcm];
    assert held - {65533} - {65534} == map[];
  }

  lemma FullDropsZero<T>(b: Buffer<T>, pcm: T)
    requires b.primed && |b.frames| == WINDOW && 0 !in b.frames && InWindow(0, b.next)
    ensures 0 !in Pushed(b, 0, pcm).frames
  {
    hide InWindow;
    AddOne(b.frames, 0, pcm);
    assert IsFirst(b.frames[0 := pcm], 0);
    FirstIsUnique(b.frames[0 := pcm], 0);
  }

  /** Priming takes the numerically first frame as the start. No held frame is before the start, by the
      signed difference, exactly when no two numbers are half the range apart. */
  lemma PrimingStartsRightIff<T>(b: Buffer<T>, s: Seq16, pcm: T)
    requires !b.primed && Pushed(b, s, pcm).primed
    ensures var r, held := Pushed(b, s, pcm), Trimmed(b.frames[s := pcm]);
            && r.frames == held && r.next in held && (forall k | k in held :: r.next <= k)
            && (forall k | k in held :: IsLive(k, r.next) <==> k - r.next < 0x8000)
            && ((forall k | k in held :: IsLive(k, r.next)) <==> forall j, k | j in held && k in held :: k - j < 0x8000)
  {
    hide Trimmed;
    var r := Pushed(b, s, pcm);
    assert IsFirst(r.frames, r.next);
  }

  /** When nothing more comes, every frame that is held at priming is played, in numerical order: behind the
      wrap the older frames come an epoch late. */
  lemma PrimedFramesPlay<T>(b: Buffer<T>, s: Seq16, pcm: T, k: Seq16)
    requires !b.primed && Pushed(b, s, pcm).primed && k in Pushed(b, s, pcm).frames
    ensures var r := Pushed(b, s, pcm);
            k >= r.next && Played(Run(r, PopTimes(k - r.next))) == Some(r.frames[k])
  {
    var r := Pushed(b, s, pcm);
    assert IsFirst(r.frames, r.next);
    hide Pushed, PopTimes, Pops, Run, Slot;
    var pops: seq<Op<T>> := PopTimes(k - r.next);
    SlotAhead(k, r.next);
    HeldFramePlaysIff(r, k, pops);
  }

  lemma TwoFramesPrime<T>(s1: Seq16, s2: Seq16, x: T, y: T)
    requires s1 != s2
    ensures Pushed(Pushed(Buffer(map[], 0, false, 2), s1, x), s2, y)
            == Buffer(map[s1 := x, s2 := y], if s1 < s2 then s1 else s2, true, 2)
  {
    hide Trimmed, First;
    var b0: Buffer<T>, b1 := Buffer(map[], 0, false, 2), Buffer(map[s1 := x], 0, false, 2);
    SmallIsNotTrimmed(b1.frames);
    assert Pushed(b0, s1, x) == b1;
    var both := b1.frames[s2 := y];
    AddOne(b1.frames, s2, y);
    SmallIsNotTrimmed(both);
    var least := if s1 < s2 then s1 else s2;
    assert IsFirst(both, least);
    FirstIsUnique(both, least);
    assert both == map[s1 := x, s2 := y];
  }

  lemma StartsAtLater<T>(x: T, y: T)
    ensures var b := Pushed(Pushed(Buffer(map[], 0, false, 2), 65535, x), 0, y);
            && Run(Buffer(map[], 0, false, 2), [Push(65535, x), Push(0, y)]) == b
            && b == Buffer(map[65535 := x, 0 := y], 0, true, 2)
  {
    TwoFramesPrime(65535, 0, x, y);
    hide Pushed;
    RunTwo(Buffer(map[], 0, false, 2), Push(65535, x), Push(0, y));
  }

  /** The first two frames of a stream can be such a case: it starts at the later one, and the earlier
      one sounds 65535 pops later if nothing more comes. */
  lemma PrimingAcrossWrapSkips<T>(x: T, y: T)
    ensures var b := Run(Buffer(map[], 0, false, 2), [Push(65535, x), Push(0, y)]);
            && b.primed && b.next == 0 && 65535 in b.frames && !IsLive(65535, b.next)
            && Played(b) == Some(y) && Played(Run(b, PopTimes(65535))) == Some(x)
  {
    StartsAtLater(x, y);
    OneFrameWaits(65535, x);
    hide Pushed, PopTimes, Run;
    PrimedFramesPlay(Pushed(Buffer(map[], 0, false, 2), 65535, x), 0, y, 65535);
  }

  lemma OneFrameWaits<T>(s: Seq16, x: T)
    ensures !Pushed(Buffer(map[], 0, false, 2), s, x).primed
  {
    AddOne(map[], s, x);
    hide First;
  }

  lemma RunTwo<T>(b: Buffer<T>, op1: Op<T>, op2: Op<T>)
    ensures Run(b, [op1, op2]) == Step(Step(b, op1), op2)
  {
    RunSnoc(b, [], op1);
    RunSnoc(b, [op1], op2);
    assert [] + [op1] == [op1] && [op1] + [op2] == [op1, op2];
  }

  lemma SmallIsNotTrimmed<T>(frames: map<Seq16, T>)
    requires |frames| <= WINDOW
    ensures Trimmed(frames) == frames
  {
  }
}
