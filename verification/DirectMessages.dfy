/** Outgoing direct messages: `App::send_chat`, `MessageHandler::request_key`, its timeout, and
    `handle_key_bundle`. A message to a peer without a session waits for a key bundle; each handler is
    one atomic step, and a timeout may fire at any moment. */
module DirectMessages {
  import opened Ids
  import opened Seqs
  import opened CryptoEngine

  /** What is handed to the network client. */
  datatype Wire<M> = KeyRequest(user: Id) | Chat(env: ChatEnvelope<M>)

  /** What the user is told in the server tab. */
  datatype Notice = FailedToSend(count: nat, user: Id) | TimedOut(user: Id, count: nat)

  // ---------------------------------------------------------------------------------------------
  // The protocol as a step system
  // ---------------------------------------------------------------------------------------------

  datatype Dm<M> = Dm(
    sessions: set<Id>, pending: map<Id, seq<M>>, wire: seq<Wire<M>>, notices: seq<Notice>,
    failed: seq<(Id, M)>, dropped: seq<(Id, M)>)
  {
    /** An entry is never empty, and never belongs to a channel. */
    ghost predicate Valid() {
      forall u | u in pending :: pending[u] != [] && !IsGroup(u)
    }

    function Queue(u: Id): seq<M> {
      if u in pending then pending[u] else []
    }
  }

  /** `ok` says whether the cipher accepts the message, `oks` the same for each flushed one. */
  datatype Event<M> =
    | Submit(user: Id, text: M, ok: bool)
    | Bundle(user: Id, established: bool, oks: seq<bool>)
    | Timeout(user: Id)
    | Inbound(user: Id)  // a pre-key message from the peer creates the session

  predicate Accepts(oks: seq<bool>, k: nat) { k < |oks| && oks[k] }

  function Sent<M>(d: Dm<M>, u: Id, text: M): Dm<M> {
    d.(wire := d.wire + [Chat(Direct(u, text))])
  }

  function Lost<M>(d: Dm<M>, u: Id, text: M): Dm<M> {
    d.(failed := d.failed + [(u, text)])
  }

  function Queued<M>(d: Dm<M>, u: Id, text: M): Dm<M> {
    d.(pending := d.pending[u := d.Queue(u) + [text]],
       wire := if u in d.pending then d.wire else d.wire + [KeyRequest(u)])
  }

  /** Sends the first `n` of the queued messages, or fails to. */
  function Flushed<M>(d: Dm<M>, u: Id, queue: seq<M>, oks: seq<bool>, n: nat): Dm<M>
    requires n <= |queue|
  {
    if n == 0 then d
    else
      var before := Flushed(d, u, queue, oks, n - 1);
      if u in d.sessions && Accepts(oks, n - 1) then Sent(before, u, queue[n - 1])
      else Lost(before, u, queue[n - 1])
  }

  function WithSession<M>(d: Dm<M>, u: Id, established: bool): Dm<M> {
    if established then d.(sessions := d.sessions + {u}) else d
  }

  function Without<M>(d: Dm<M>, u: Id): Dm<M> {
    d.(pending := d.pending - {u})
  }

  /** The whole entry of `u` taken out and sent, and the failures reported. */
  function EntryFlushed<M>(d: Dm<M>, u: Id, oks: seq<bool>): Dm<M>
    requires u in d.pending
  {
    var r := Flushed(Without(d, u), u, d.pending[u], oks, |d.pending[u]|);
    var lost: int := |r.failed| - |d.failed|;
    r.(notices := if lost > 0 then r.notices + [FailedToSend(lost, u)] else r.notices)
  }

  function Pairs<M>(u: Id, texts: seq<M>): seq<(Id, M)> {
    seq(|texts|, i requires 0 <= i < |texts| => (u, texts[i]))
  }

  function Step<M>(d: Dm<M>, e: Event<M>): Dm<M> {
    match e
    case Submit(u, text, ok) =>
      if IsGroup(u) then d
      else if u !in d.sessions then Queued(d, u, text)
      else if ok then Sent(d, u, text)
      else Lost(d, u, text)
    case Bundle(u, established, oks) =>
      if u == "" then d
      else if u in d.pending then EntryFlushed(WithSession(d, u, established), u, oks)
      else WithSession(d, u, established)
    case Timeout(u) =>
      if u !in d.pending then d
      else d.(pending := d.pending - {u}, dropped := d.dropped + Pairs(u, d.pending[u]),
              notices := d.notices + [TimedOut(u, |d.pending[u]|)])
    case Inbound(u) => d.(sessions := d.sessions + {u})
  }

  lemma {:induction false} FlushedFrame<M>(d: Dm<M>, u: Id, queue: seq<M>, oks: seq<bool>, n: nat)
    requires n <= |queue|
    ensures var r := Flushed(d, u, queue, oks, n);
            r == d.(wire := r.wire, failed := r.failed) && |d.failed| <= |r.failed|
  {
    if n > 0 { FlushedFrame(d, u, queue, oks, n - 1); }
  }

  /** The chat envelope that was added to the wire, if any. */
  function GroupEnvelope<M>(before: seq<Wire<M>>, after: seq<Wire<M>>): Option<ChatEnvelope<M>> {
    if |after| == |before| + 1 && after[|before|].Chat? then Some(after[|before|].env) else None
  }

  lemma FlushedStep<M>(d: Dm<M>, u: Id, queue: seq<M>, oks: seq<bool>, k: nat)
    requires k < |queue|
    ensures var before := Flushed(d, u, queue, oks, k);
            Flushed(d, u, queue, oks, k + 1)
            == if u in d.sessions && Accepts(oks, k) then Sent(before, u, queue[k]) else Lost(before, u, queue[k])
    ensures Flushed(d, u, queue, oks, 0) == d
  {
  }

  // ---------------------------------------------------------------------------------------------
  // The handlers as an object
  // ---------------------------------------------------------------------------------------------

  class MessageHandler<M, K> {
    const crypto: CryptoEngine<M, K>
    var pendingSends: map<Id, seq<M>>
    var wire: seq<Wire<M>>
    var notices: seq<Notice>
    ghost var failed: seq<(Id, M)>
    ghost var dropped: seq<(Id, M)>

    ghost function State(): Dm<M>
      reads this, crypto
    {
      Dm(crypto.sessions, pendingSends, wire, notices, failed, dropped)
    }

    ghost predicate Valid()
      reads this, crypto
    {
      State().Valid() && crypto.Valid()
    }

    constructor (crypto: CryptoEngine<M, K>)
      requires crypto.Valid()
      ensures Valid() && this.crypto == crypto && State() == Dm(crypto.sessions, map[], [], [], [], [])
    {
      this.crypto := crypto;
      pendingSends, wire, notices, failed, dropped := map[], [], [], [], [];
    }

    /** `request_key` */
    method RequestKey(recipient: Id, text: M)
      requires Valid() && !IsGroup(recipient)
      modifies this
      ensures Valid() && State() == Queued(old(State()), recipient, text)
    {
      var firstRequest := recipient !in pendingSends;
      var queue := if recipient in pendingSends then pendingSends[recipient] else [];
      pendingSends := pendingSends[recipient := queue + [text]];
      if firstRequest {
        wire := wire + [KeyRequest(recipient)];
      }
    }

    /** The thread that `request_key` starts, after its sleep. */
    method KeyTimeout(recipient: Id)
      requires Valid()
      modifies this
      ensures Valid() && State() == Step(old(State()), Timeout(recipient))
    {
      if recipient in pendingSends {
        var count := |pendingSends[recipient]|;
        dropped := dropped + Pairs(recipient, pendingSends[recipient]);
        pendingSends := pendingSends - {recipient};
        notices := notices + [TimedOut(recipient, count)];
      }
    }

    /** The end of `App::send_chat`: encrypt, and send what comes out. */
    method SendChat(recipient: Id, text: M, o: Outcome)
      requires Valid()
      modifies this, crypto
      ensures Valid()
      ensures !IsGroup(recipient) ==> State() == Step(old(State()), Submit(recipient, text, !o.encryptThrows))
      ensures IsGroup(recipient) ==>
                && (crypto.State(), GroupEnvelope(old(wire), wire))
                   == EncryptGroup(old(crypto.State()), recipient, text, o)
                && State() == old(State()).(wire := wire, failed := failed) && old(wire) <= wire
    {
      var env, keyWanted := crypto.Encrypt(recipient, text, o);
      if keyWanted {
        RequestKey(recipient, text);
      } else if env.Some? {
        wire := wire + [Chat(env.value)];
      } else {
        failed := failed + [(recipient, text)];
      }
    }

    /** One turn of the loop in `handle_key_bundle`. */
    method SendQueued(recipient: Id, text: M, ok: bool) returns (sent: bool)
      requires crypto.Valid() && !IsGroup(recipient)
      modifies this, crypto
      ensures crypto.Valid() && sent == (recipient in crypto.sessions && ok)
      ensures State() == if sent then Sent(old(State()), recipient, text) else Lost(old(State()), recipient, text)
    {
      var env, _ := crypto.Encrypt(recipient, text, Outcome(0, false, false, !ok, false));
      if env.Some? {
        wire := wire + [Chat(env.value)];
      } else {
        failed := failed + [(recipient, text)];
      }
      sent := env.Some?;
    }

    /** The loop in `handle_key_bundle`. */
    method SendAllQueued(recipient: Id, queued: seq<M>, oks: seq<bool>) returns (lost: nat)
      requires crypto.Valid() && !IsGroup(recipient)
      modifies this, crypto
      ensures crypto.Valid() && State() == Flushed(old(State()), recipient, queued, oks, |queued|)
      ensures lost == |failed| - |old(failed)|
    {
      ghost var start := State();
      lost := 0;
      assert Flushed(start, recipient, queued, oks, 0) == start;
      hide Flushed;
      for k := 0 to |queued|
        invariant crypto.Valid() && State() == Flushed(start, recipient, queued, oks, k)
        invariant crypto.sessions == start.sessions && lost == |failed| - |start.failed|
      {
        FlushedStep(start, recipient, queued, oks, k);
        var sent := SendQueued(recipient, queued[k], k < |oks| && oks[k]);
        if !sent { lost := lost + 1; }
      }
    }

    /** `handle_key_bundle`; a bundle that names no recipient is ignored. */
    method HandleKeyBundle(recipient: Id, established: bool, oks: seq<bool>)
      requires Valid()
      modifies this, crypto
      ensures Valid() && State() == Step(old(State()), Bundle(recipient, established, oks))
    {
      if recipient == "" { return; }
      crypto.OnKeyBundle(recipient, established);
      if recipient !in pendingSends { return; }
      hide Flushed;
      var queued := pendingSends[recipient];
      pendingSends := pendingSends - {recipient};
      assert State() == Without(WithSession(old(State()), recipient, established), recipient);
      FlushedFrame(State(), recipient, queued, oks, |queued|);
      var lost := SendAllQueued(recipient, queued, oks);
      if lost > 0 {
        notices := notices + [FailedToSend(lost, recipient)];
      }
    }
  }

  // ---------------------------------------------------------------------------------------------
  // Runs
  // ---------------------------------------------------------------------------------------------

  function Run<M>(d: Dm<M>, events: seq<Event<M>>): Dm<M> {
    if events == [] then d else Step(Run(d, events[..|events| - 1]), events[|events| - 1])
  }

  function Start<M>(sessions: set<Id>): Dm<M> { Dm(sessions, map[], [], [], [], []) }

  lemma StepKeepsValid<M>(d: Dm<M>, e: Event<M>)
    requires d.Valid()
    ensures Step(d, e).Valid()
  {
    if e.Bundle? && e.user in d.pending {
      var d1 := WithSession(d, e.user, e.established);
      FlushedFrame(Without(d1, e.user), e.user, d.pending[e.user], e.oks, |d.pending[e.user]|);
    }
  }

  /** In every run, a pending entry is never empty. */
  lemma {:induction false} EntriesNeverEmpty<M>(sessions: set<Id>, events: seq<Event<M>>)
    ensures Run(Start(sessions), events).Valid()
  {
    if events != [] {
      EntriesNeverEmpty(sessions, events[..|events| - 1]);
      StepKeepsValid(Run(Start(sessions), events[..|events| - 1]), events[|events| - 1]);
    }
  }

  // ---------------------------------------------------------------------------------------------
  // Conservation
  // ---------------------------------------------------------------------------------------------

  /** The direct messages to `u` on the wire, in order. */
  function SentTo<M>(wire: seq<Wire<M>>, u: Id): seq<M> {
    if wire == [] then []
    else
      var w := wire[|wire| - 1];
      SentTo(wire[..|wire| - 1], u)
      + if w.Chat? && w.env.Direct? && w.env.recipient == u then [w.env.text] else []
  }

  /** The messages to `u` in a list of lost ones. */
  function To<M>(lost: seq<(Id, M)>, u: Id): seq<M> {
    if lost == [] then []
    else To(lost[..|lost| - 1], u) + if lost[|lost| - 1].0 == u then [lost[|lost| - 1].1] else []
  }

  function Submitted<M>(events: seq<Event<M>>, u: Id): seq<M> {
    if events == [] then []
    else
      var e := events[|events| - 1];
      Submitted(events[..|events| - 1], u) + if e.Submit? && e.user == u then [e.text] else []
  }

  lemma {:induction false} ToPairs<M>(lost: seq<(Id, M)>, u: Id, texts: seq<M>, v: Id)
    ensures To(lost + Pairs(u, texts), v) == To(lost, v) + if u == v then texts else []
    decreases |texts|
  {
    if texts == [] {
      assert lost + Pairs(u, texts) == lost;
    } else {
      var m := |texts| - 1;
      var all := lost + Pairs(u, texts);
      assert all[..|all| - 1] == lost + Pairs(u, texts[..m]);
      ToPairs(lost, u, texts[..m], v);
      assert texts == texts[..m] + [texts[m]];
    }
  }

  /** Everything that has left the queue of `u` or is still in it. */
  ghost function Accounted<M>(d: Dm<M>, u: Id): multiset<M> {
    multiset(SentTo(d.wire, u)) + multiset(d.Queue(u)) + multiset(To(d.failed, u)) + multiset(To(d.dropped, u))
  }

  lemma SentAccounts<M>(d: Dm<M>, u: Id, text: M, v: Id)
    ensures Accounted(Sent(d, u, text), v) == Accounted(d, v) + if u == v then multiset{text} else multiset{}
  {
    hide To, SentTo;
    SentAppends(d, u, text, v);
  }

  lemma SentAppends<M>(d: Dm<M>, u: Id, text: M, v: Id)
    ensures SentTo(Sent(d, u, text).wire, v) == SentTo(d.wire, v) + if u == v then [text] else []
  {
    var w := Chat(Direct(u, text));
    assert (d.wire + [w])[..|d.wire|] == d.wire;
  }

  lemma LostAccounts<M>(d: Dm<M>, u: Id, text: M, v: Id)
    ensures Accounted(Lost(d, u, text), v) == Accounted(d, v) + if u == v then multiset{text} else multiset{}
  {
    assert (d.failed + [(u, text)])[..|d.failed|] == d.failed;
  }

  lemma QueuedAccounts<M>(d: Dm<M>, u: Id, text: M, v: Id)
    ensures Accounted(Queued(d, u, text), v) == Accounted(d, v) + if u == v then multiset{text} else multiset{}
    ensures SentTo(Queued(d, u, text).wire, v) == SentTo(d.wire, v)
  {
    hide To, SentTo;
    RequestIsNotSent(d.wire, u, v);
  }

  lemma RequestIsNotSent<M>(wire: seq<Wire<M>>, u: Id, v: Id)
    ensures SentTo(wire + [KeyRequest(u)], v) == SentTo(wire, v)
  {
    assert (wire + [KeyRequest(u)])[..|wire|] == wire;
  }

  lemma {:induction false} FlushedAccounts<M>(d: Dm<M>, u: Id, queue: seq<M>, oks: seq<bool>, n: nat, v: Id)
    requires n <= |queue|
    ensures Accounted(Flushed(d, u, queue, oks, n), v)
            == Accounted(d, v) + if u == v then multiset(queue[..n]) else multiset{}
  {
    hide Accounted;
    if n > 0 {
      FlushedAccounts(d, u, queue, oks, n - 1, v);
      var before := Flushed(d, u, queue, oks, n - 1);
      SentAccounts(before, u, queue[n - 1], v);
      LostAccounts(before, u, queue[n - 1], v);
      assert queue[..n] == queue[..n - 1] + [queue[n - 1]];
    }
  }

  lemma WithoutAccounts<M>(d: Dm<M>, u: Id, v: Id)
    requires u in d.pending
    ensures Accounted(Without(d, u), v) + (if u == v then multiset(d.pending[u]) else multiset{}) == Accounted(d, v)
  {
    hide SentTo, To;
    assert u != v ==> Without(d, u).Queue(v) == d.Queue(v);
  }

  /** Sessions and notices do not count. */
  lemma SameAccounts<M>(d: Dm<M>, r: Dm<M>, u: Id)
    requires d.wire == r.wire && d.pending == r.pending && d.failed == r.failed && d.dropped == r.dropped
    ensures Accounted(d, u) == Accounted(r, u)
  {
  }

  lemma BundleAccounts<M>(d: Dm<M>, u: Id, established: bool, oks: seq<bool>, v: Id)
    ensures Accounted(Step(d, Bundle(u, established, oks)), v) == Accounted(d, v)
  {
    hide Accounted, Flushed;
    var d1 := WithSession(d, u, established);
    SameAccounts(d, d1, v);
    if u != "" && u in d.pending {
      var q := d.pending[u];
      WithoutAccounts(d1, u, v);
      FlushedAccounts(Without(d1, u), u, q, oks, |q|, v);
      assert q[..|q|] == q;
      SameAccounts(EntryFlushed(d1, u, oks), Flushed(Without(d1, u), u, q, oks, |q|), v);
    }
  }

  lemma TimeoutAccounts<M>(d: Dm<M>, u: Id, v: Id)
    ensures Accounted(Step(d, Timeout(u)), v) == Accounted(d, v)
  {
    hide SentTo, To;
    if u in d.pending {
      WithoutAccounts(d, u, v);
      ToPairs(d.dropped, u, d.pending[u], v);
      assert multiset(To(d.dropped, v) + if u == v then d.pending[u] else [])
          == multiset(To(d.dropped, v)) + if u == v then multiset(d.pending[u]) else multiset{};
    }
  }

  lemma SubmitAccounts<M>(d: Dm<M>, u: Id, text: M, ok: bool, v: Id)
    requires !IsGroup(v)
    ensures Accounted(Step(d, Submit(u, text, ok)), v)
            == Accounted(d, v) + if u == v then multiset{text} else multiset{}
  {
    hide Accounted;
    SentAccounts(d, u, text, v);
    LostAccounts(d, u, text, v);
    QueuedAccounts(d, u, text, v);
  }

  /** In every run, for every peer, each submitted message is sent, pending, failed or dropped, and
      exactly one of these. */
  lemma {:induction false} MessagesConserved<M>(sessions: set<Id>, events: seq<Event<M>>, u: Id)
    requires !IsGroup(u)
    ensures Accounted(Run(Start(sessions), events), u) == multiset(Submitted(events, u))
  {
    hide Accounted, Step;
    if events == [] {
      NothingAccounted<M>(sessions, u);
    } else {
      var before, e := Run(Start(sessions), events[..|events| - 1]), events[|events| - 1];
      MessagesConserved(sessions, events[..|events| - 1], u);
      match e
      case Submit(v, text, ok) => SubmitAccounts(before, v, text, ok, u);
      case Bundle(v, established, oks) => BundleAccounts(before, v, established, oks, u);
      case Timeout(v) => TimeoutAccounts(before, v, u);
      case Inbound(v) => InboundAccounts(before, v, u);
    }
  }

  lemma InboundAccounts<M>(d: Dm<M>, u: Id, v: Id)
    ensures Accounted(Step(d, Inbound(u)), v) == Accounted(d, v)
  {
    SameAccounts(d, Step(d, Inbound(u)), v);
  }

  lemma NothingAccounted<M>(sessions: set<Id>, u: Id)
    ensures Accounted<M>(Start(sessions), u) == multiset{}
  {
  }

  // ---------------------------------------------------------------------------------------------
  // Key requests
  // ---------------------------------------------------------------------------------------------

  function Requests<M>(wire: seq<Wire<M>>, u: Id): nat {
    if wire == [] then 0
    else Requests(wire[..|wire| - 1], u) + if wire[|wire| - 1] == KeyRequest(u) then 1 else 0
  }

  /** How often a bundle or a timeout found an entry of `u` and closed it. */
  function Closed<M>(d: Dm<M>, events: seq<Event<M>>, u: Id): nat {
    if events == [] then 0
    else
      var before, e := Run(d, events[..|events| - 1]), events[|events| - 1];
      Closed(d, events[..|events| - 1], u)
      + if Closes(before, e, u) then 1 else 0
  }

  lemma RequestsSnoc<M>(wire: seq<Wire<M>>, w: Wire<M>, u: Id)
    ensures Requests(wire + [w], u) == Requests(wire, u) + if w == KeyRequest(u) then 1 else 0
  {
    assert (wire + [w])[..|wire|] == wire;
  }

  lemma {:induction false} FlushedRequests<M>(d: Dm<M>, u: Id, queue: seq<M>, oks: seq<bool>, n: nat, v: Id)
    requires n <= |queue|
    ensures Requests(Flushed(d, u, queue, oks, n).wire, v) == Requests(d.wire, v)
  {
    hide Requests;
    if n > 0 {
      FlushedRequests(d, u, queue, oks, n - 1, v);
      RequestsSnoc(Flushed(d, u, queue, oks, n - 1).wire, Chat(Direct(u, queue[n - 1])), v);
    }
  }

  lemma BundleRequests<M>(d: Dm<M>, u: Id, established: bool, oks: seq<bool>, v: Id)
    ensures Requests(Step(d, Bundle(u, established, oks)).wire, v) == Requests(d.wire, v)
    ensures u != "" ==> Step(d, Bundle(u, established, oks)).pending == d.pending - {u}
  {
    hide Flushed, Requests;
    var d1 := WithSession(d, u, established);
    if u in d.pending {
      FlushedFrame(Without(d1, u), u, d.pending[u], oks, |d.pending[u]|);
      FlushedRequests(Without(d1, u), u, d.pending[u], oks, |d.pending[u]|, v);
    } else {
      assert d.pending - {u} == d.pending;
    }
  }

  predicate Closes<M>(d: Dm<M>, e: Event<M>, u: Id) {
    (e.Bundle? || e.Timeout?) && e.user == u && u in d.pending
  }

  lemma StepRequests<M>(d: Dm<M>, e: Event<M>, u: Id)
    requires u != ""
    ensures Requests(Step(d, e).wire, u) + (if u in d.pending then 1 else 0)
            == Requests(d.wire, u) + (if Closes(d, e, u) then 1 else 0) + (if u in Step(d, e).pending then 1 else 0)
  {
    hide Requests;
    match e
    case Submit(v, text, ok) =>
      RequestsSnoc(d.wire, KeyRequest(v), u);
      RequestsSnoc(d.wire, Chat(Direct(v, text)), u);
    case Bundle(v, established, oks) =>
      hide Step;
      BundleRequests(d, v, established, oks, u);
      if v == "" { assert Step(d, e) == d by { EmptyBundle(d, e); } }
    case Timeout(v) =>
    case Inbound(v) =>
  }

  lemma EmptyBundle<M>(d: Dm<M>, e: Event<M>)
    requires e.Bundle? && e.user == ""
    ensures Step(d, e) == d
  {
  }

  /** One key request goes out per entry: those on the wire are the closed entries and the open one. */
  lemma {:induction false} OneRequestPerEntry<M>(sessions: set<Id>, events: seq<Event<M>>, u: Id)
    requires u != ""
    ensures var d := Run(Start(sessions), events);
            Requests(d.wire, u) == Closed(Start(sessions), events, u) + if u in d.pending then 1 else 0
  {
    if events != [] {
      var before := Run(Start(sessions), events[..|events| - 1]);
      OneRequestPerEntry(sessions, events[..|events| - 1], u);
      StepRequests(before, events[|events| - 1], u);
    }
  }

  // ---------------------------------------------------------------------------------------------
  // Order
  // ---------------------------------------------------------------------------------------------

  ghost predicate Increasing(s: seq<nat>) {
    forall i, j | 0 <= i < j < |s| :: s[i] < s[j]
  }

  /** Every message carries the index of its submission, counted from `n`. */
  ghost predicate Tagged(events: seq<Event<nat>>, n: nat) {
    forall k | 0 <= k < |events| :: events[k].Submit? ==> events[k].text == n + k
  }

  ghost predicate Ordered(line: seq<nat>, bound: nat) {
    Increasing(line) && forall k | 0 <= k < |line| :: line[k] < bound
  }

  /** What has been sent to `u`, then what is queued for `u`. */
  function Line<M>(d: Dm<M>, u: Id): seq<M> { SentTo(d.wire, u) + d.Queue(u) }

  ghost predicate InOrder(d: Dm<nat>, u: Id, n: nat) {
    Ordered(Line(d, u), n)
  }

  lemma OrderedAppend(line: seq<nat>, n: nat)
    requires Ordered(line, n)
    ensures Ordered(line + [n], n + 1) && Ordered(line, n + 1)
  {
  }

  lemma OrderedPrefix(a: seq<nat>, b: seq<nat>, n: nat)
    requires Ordered(a + b, n)
    ensures Ordered(a, n)
  {
    assert forall i | 0 <= i < |a| :: a[i] == (a + b)[i];
  }

  /** A message that is sent at once while older ones are still queued for the same peer. */
  predicate Overtakes<M>(d: Dm<M>, e: Event<M>, u: Id) {
    e.Submit? && e.user == u && e.ok && u in d.sessions && u in d.pending
  }

  lemma {:induction false} FlushKeepsOrder(d: Dm<nat>, u: Id, queue: seq<nat>, oks: seq<bool>, n: nat, bound: nat)
    requires n <= |queue| && Ordered(SentTo(d.wire, u) + queue, bound)
    ensures Ordered(SentTo(Flushed(d, u, queue, oks, n).wire, u) + queue[n..], bound)
  {
    hide SentTo, Ordered;
    if n == 0 {
      assert queue[0..] == queue;
    } else {
      FlushKeepsOrder(d, u, queue, oks, n - 1, bound);
      var before := Flushed(d, u, queue, oks, n - 1);
      SentAppends(before, u, queue[n - 1], u);
      assert queue[n - 1..] == [queue[n - 1]] + queue[n..];
      DropKeepsOrdered(SentTo(before.wire, u), queue[n - 1], queue[n..], bound);
    }
  }

  /** One element in the middle may be taken out, or counted with the first part. */
  lemma DropKeepsOrdered(a: seq<nat>, x: nat, rest: seq<nat>, bound: nat)
    requires Ordered(a + ([x] + rest), bound)
    ensures Ordered(a + rest, bound) && Ordered((a + [x]) + rest, bound)
  {
    var line, less := a + ([x] + rest), a + rest;
    assert (a + [x]) + rest == line;
    forall i | 0 <= i < |less|
      ensures less[i] == line[if i < |a| then i else i + 1]
    {
    }
  }

  lemma QueuedLine<M>(d: Dm<M>, u: Id, text: M)
    ensures Line(Queued(d, u, text), u) == Line(d, u) + [text]
  {
    hide SentTo;
    QueuedAccounts(d, u, text, u);
    Reassociate(SentTo(d.wire, u), d.Queue(u), [text]);
  }

  lemma SentLine<M>(d: Dm<M>, u: Id, text: M)
    requires u !in d.pending
    ensures Line(Sent(d, u, text), u) == Line(d, u) + [text]
  {
    hide SentTo;
    SentAppends(d, u, text, u);
  }

  lemma OtherLine<M>(d: Dm<M>, v: Id, text: M, ok: bool, u: Id)
    requires u != v
    ensures Line(Step(d, Submit(v, text, ok)), u) == Line(d, u)
  {
    hide SentTo, Accounted;
    SentAppends(d, v, text, u);
    QueuedAccounts(d, v, text, u);
    assert Queued(d, v, text).Queue(u) == d.Queue(u);
  }

  lemma SubmitKeepsOrder(d: Dm<nat>, v: Id, n: nat, ok: bool, u: Id)
    requires InOrder(d, u, n) && !Overtakes(d, Submit(v, n, ok), u)
    ensures InOrder(Step(d, Submit(v, n, ok)), u, n + 1)
  {
    hide Line, Ordered, Queued, Sent;
    OrderedAppend(Line(d, u), n);
    if u != v {
      OtherLine(d, v, n, ok, u);
    } else {
      QueuedLine(d, u, n);
      if u !in d.pending { SentLine(d, u, n); }
      LostLine(d, u, n);
    }
  }

  lemma LostLine<M>(d: Dm<M>, u: Id, text: M)
    ensures Line(Lost(d, u, text), u) == Line(d, u)
  {
  }

  lemma BundleKeepsOrder(d: Dm<nat>, v: Id, established: bool, oks: seq<bool>, u: Id, n: nat)
    requires InOrder(d, u, n)
    ensures InOrder(Step(d, Bundle(v, established, oks)), u, n)
  {
    hide SentTo, Ordered;
    if v != "" && v in d.pending {
      var d1, q := Without(WithSession(d, v, established), v), d.pending[v];
      FlushedFrame(d1, v, q, oks, |q|);
      if u == v {
        FlushKeepsOrder(d1, v, q, oks, |q|, n);
        assert q[|q|..] == [] == Step(d, Bundle(v, established, oks)).Queue(u);
      } else {
        FlushToOthers(d1, v, q, oks, |q|, u);
        assert Step(d, Bundle(v, established, oks)).Queue(u) == d.Queue(u);
      }
    }
  }

  lemma {:induction false} FlushToOthers<M>(d: Dm<M>, u: Id, queue: seq<M>, oks: seq<bool>, n: nat, v: Id)
    requires n <= |queue| && u != v
    ensures SentTo(Flushed(d, u, queue, oks, n).wire, v) == SentTo(d.wire, v)
  {
    hide SentTo;
    if n > 0 {
      FlushToOthers(d, u, queue, oks, n - 1, v);
      SentAppends(Flushed(d, u, queue, oks, n - 1), u, queue[n - 1], v);
    }
  }

  lemma StepKeepsOrder(d: Dm<nat>, e: Event<nat>, u: Id, n: nat)
    requires InOrder(d, u, n) && !Overtakes(d, e, u) && (e.Submit? ==> e.text == n)
    ensures InOrder(Step(d, e), u, n + 1)
  {
    hide SentTo, Ordered;
    match e
    case Submit(v, _, ok) => SubmitKeepsOrder(d, v, n, ok, u);
    case Bundle(v, established, oks) =>
      BundleKeepsOrder(d, v, established, oks, u, n);
      OrderedAppend(Line(Step(d, e), u), n);
    case Timeout(v) =>
      OrderedAppend(Line(d, u), n);
      OrderedPrefix(SentTo(d.wire, u), d.Queue(u), n + 1);
      if u == v {
        assert SentTo(d.wire, u) + [] == SentTo(d.wire, u);
      } else {
        assert Step(d, e).Queue(u) == d.Queue(u);
      }
    case Inbound(v) => OrderedAppend(Line(d, u), n);
  }

  /** No message for `u` is sent while others are queued. */
  ghost predicate NoneOvertakes(d: Dm<nat>, events: seq<Event<nat>>, u: Id) {
    forall k | 0 <= k < |events| :: !Overtakes(Run(d, events[..k]), events[k], u)
  }

  lemma NoneOvertakesInit(d: Dm<nat>, events: seq<Event<nat>>, u: Id)
    requires NoneOvertakes(d, events, u) && events != []
    ensures var n := |events| - 1;
            NoneOvertakes(d, events[..n], u) && !Overtakes(Run(d, events[..n]), events[n], u)
  {
    hide Overtakes, Run;
    assert forall k | 0 <= k < |events| - 1 :: events[..|events| - 1][..k] == events[..k];
  }

  lemma {:induction false} RunKeepsOrder(d: Dm<nat>, events: seq<Event<nat>>, u: Id, n: nat)
    requires InOrder(d, u, n) && Tagged(events, n) && NoneOvertakes(d, events, u)
    ensures InOrder(Run(d, events), u, n + |events|)
    ensures Increasing(SentTo(Run(d, events).wire, u))
  {
    hide InOrder, NoneOvertakes, Step, Overtakes, SentTo, Increasing;
    if events != [] {
      var m := |events| - 1;
      NoneOvertakesInit(d, events, u);
      RunKeepsOrder(d, events[..m], u, n);
      StepKeepsOrder(Run(d, events[..m]), events[m], u, n + m);
    }
    InOrderIsIncreasing(Run(d, events), u, n + |events|);
  }

  lemma InOrderIsIncreasing(d: Dm<nat>, u: Id, n: nat)
    requires InOrder(d, u, n)
    ensures Increasing(SentTo(d.wire, u))
  {
    OrderedPrefix(SentTo(d.wire, u), d.Queue(u), n);
  }

  /** As long as no message overtakes queued ones, the wire order per peer is the order of submission. */
  lemma WireOrderIsSubmissionOrder(sessions: set<Id>, events: seq<Event<nat>>, u: Id)
    requires Tagged(events, 0) && NoneOvertakes(Start(sessions), events, u)
    ensures InOrder(Run(Start(sessions), events), u, |events|)
    ensures Increasing(SentTo(Run(Start(sessions), events).wire, u))
  {
    RunKeepsOrder(Start(sessions), events, u, 0);
  }

  /** When sessions come only from key bundles, no peer has a session and a queue at the same time. */
  lemma {:induction false} NoSessionWhileQueued<M>(sessions: set<Id>, events: seq<Event<M>>, u: Id)
    requires forall k | 0 <= k < |events| :: !events[k].Inbound?
    ensures var d := Run(Start(sessions), events); !(u in d.sessions && u in d.pending)
  {
    if events != [] {
      var before, e := Run(Start(sessions), events[..|events| - 1]), events[|events| - 1];
      NoSessionWhileQueued(sessions, events[..|events| - 1], u);
      if e.Bundle? && e.user in before.pending {
        var d1 := Without(WithSession(before, e.user, e.established), e.user);
        FlushedFrame(d1, e.user, before.pending[e.user], e.oks, |before.pending[e.user]|);
      }
    }
  }

  /** Without inbound sessions the wire order per peer is always the order of submission. */
  lemma BundleSessionsKeepOrder(sessions: set<Id>, events: seq<Event<nat>>, u: Id)
    requires Tagged(events, 0) && forall k | 0 <= k < |events| :: !events[k].Inbound?
    ensures Increasing(SentTo(Run(Start(sessions), events).wire, u))
  {
    forall k | 0 <= k < |events|
      ensures !Overtakes(Run(Start(sessions), events[..k]), events[k], u)
    {
      NoSessionWhileQueued(sessions, events[..k], u);
    }
    WireOrderIsSubmissionOrder(sessions, events, u);
  }

  /** Conversely, an overtaking message is out of order as soon as the queue behind it is flushed. */
  lemma OvertakingReorders(d: Dm<nat>, u: Id, n: nat)
    requires d.Valid() && InOrder(d, u, n) && u != "" && Overtakes(d, Submit(u, n, true), u)
    ensures var oks := seq(|d.pending[u]|, _ => true);
            !Increasing(SentTo(Step(Step(d, Submit(u, n, true)), Bundle(u, true, oks)).wire, u))
  {
    var d1, q, oks := Step(d, Submit(u, n, true)), d.pending[u], seq(|d.pending[u]|, _ => true);
    var sent := SentTo(d.wire, u);
    SentAppends(d, u, n, u);
    FlushSendsAll(Without(WithSession(d1, u, true), u), u, q, oks, |q|);
    assert q[..|q|] == q;
    var all := (sent + [n]) + q;
    assert all[|sent|] == n && all[|sent| + 1] == q[0] == (sent + q)[|sent|];
  }

  /** A message keeps the wire order over every later run in which nothing further overtakes, exactly when
      it overtakes nothing itself. */
  lemma OrderKeptIff(d: Dm<nat>, u: Id, n: nat, ok: bool)
    requires d.Valid() && InOrder(d, u, n) && u != ""
    ensures var d1 := Step(d, Submit(u, n, ok));
            (forall more :: Tagged(more, n + 1) && NoneOvertakes(d1, more, u) ==>
                              Increasing(SentTo(Run(d1, more).wire, u)))
            <==> !Overtakes(d, Submit(u, n, ok), u)
  {
    var d1 := Step(d, Submit(u, n, ok));
    hide Step, SentTo, InOrder, NoneOvertakes, Run, Increasing;
    if Overtakes(d, Submit(u, n, ok), u) {
      OvertakingReorders(d, u, n);
      var bundle: Event<nat> := Bundle(u, true, seq(|d.pending[u]|, _ => true));
      OneMore(d1, bundle, u);
      assert Tagged([bundle], n + 1);
    } else {
      StepKeepsOrder(d, Submit(u, n, ok), u, n);
      forall more | Tagged(more, n + 1) && NoneOvertakes(d1, more, u)
        ensures Increasing(SentTo(Run(d1, more).wire, u))
      {
        RunKeepsOrder(d1, more, u, n + 1);
      }
    }
  }

  lemma OneMore(d: Dm<nat>, e: Event<nat>, u: Id)
    requires !e.Submit?
    ensures Run(d, [e]) == Step(d, e) && NoneOvertakes(d, [e], u)
  {
    hide Step;
    assert [e][..0] == [];
  }

  /** It happens in a run: the peer writes first while a message to it is waiting for a key bundle, and
      the next message goes out in front of the waiting one. */
  lemma InboundSessionOvertakes()
    ensures var waiting: seq<Event<nat>> := [Submit("bob", 0, true), Inbound("bob")];
            Overtakes(Run(Start({}), waiting), Submit("bob", 2, true), "bob")
            && SentTo(Run(Start({}), waiting + [Submit("bob", 2, true), Bundle("bob", true, [true])]).wire, "bob")
               == [2, 0]
  {
    var d2: Dm<nat> := Dm({"bob"}, map["bob" := [0]], [KeyRequest("bob")], [], [], []);
    var waiting: seq<Event<nat>> := [Submit("bob", 0, true), Inbound("bob")];
    WaitingForBob();
    hide Step;
    assert waiting[..1][..0] == [] && waiting[..|waiting| - 1] == waiting[..1];
    assert Run(Start({}), waiting[..1]) == Step(Start({}), waiting[0]);
    assert Run(Start({}), waiting) == d2;
    var submit, bundle := Submit("bob", 2, true), Bundle("bob", true, [true]);
    var all := waiting + [submit, bundle];
    assert all[..3][..2] == waiting && all[..|all| - 1] == all[..3];
    assert Run(Start({}), all[..3]) == Step(d2, submit);
    assert Run(Start({}), all) == Step(Step(d2, submit), bundle);
    OvertakenLine(d2);
  }

  lemma WaitingForBob()
    ensures Step(Step(Start({}), Submit("bob", 0, true)), Inbound("bob"))
            == Dm({"bob"}, map["bob" := [0]], [KeyRequest("bob")], [], [], [])
  {
    var d: Dm<nat> := Start({});
    assert d.Queue("bob") + [0] == [0] && d.wire + [KeyRequest("bob")] == [KeyRequest("bob")];
    assert d.sessions + {"bob"} == {"bob"};
    assert !IsGroup("bob");
  }

  lemma OvertakenLine(d: Dm<nat>)
    requires d == Dm({"bob"}, map["bob" := [0]], [KeyRequest("bob")], [], [], [])
    ensures SentTo(Step(Step(d, Submit("bob", 2, true)), Bundle("bob", true, [true])).wire, "bob") == [2, 0]
  {
    SentAppends(d, "bob", 2, "bob");
    assert SentTo(d.wire, "bob") == [] by { assert d.wire[..0] == []; }
    var d1 := Step(d, Submit("bob", 2, true));
    FlushSendsAll(Without(WithSession(d1, "bob", true), "bob"), "bob", [0], [true], 1);
    assert [0][..1] == [0];
  }

  lemma {:induction false} FlushSendsAll<M>(d: Dm<M>, u: Id, queue: seq<M>, oks: seq<bool>, n: nat)
    requires n <= |queue| == |oks| && u in d.sessions && forall k | 0 <= k < |oks| :: oks[k]
    ensures SentTo(Flushed(d, u, queue, oks, n).wire, u) == SentTo(d.wire, u) + queue[..n]
  {
    hide SentTo;
    if n > 0 {
      FlushSendsAll(d, u, queue, oks, n - 1);
      SentAppends(Flushed(d, u, queue, oks, n - 1), u, queue[n - 1], u);
      assert queue[..n] == queue[..n - 1] + [queue[n - 1]];
    }
  }

  // ---------------------------------------------------------------------------------------------
  // What becomes of the messages to one peer
  // ---------------------------------------------------------------------------------------------

  /** Everything there is about one peer: whether it has a session, the messages that wait, were sent, refused
      and timed out, each in order, and what the user was told. */
  datatype View<M> = View(session: bool, queue: seq<M>, sent: seq<M>, failed: seq<M>, dropped: seq<M>,
                          told: seq<Notice>)

  function About(notices: seq<Notice>, u: Id): seq<Notice> {
    if notices == [] then []
    else
      About(notices[..|notices| - 1], u)
      + if notices[|notices| - 1].user == u then [notices[|notices| - 1]] else []
  }

  function ViewOf<M>(d: Dm<M>, u: Id): View<M> {
    View(u in d.sessions, d.Queue(u), SentTo(d.wire, u), To(d.failed, u), To(d.dropped, u), About(d.notices, u))
  }

  /** Those of the first `n` messages that the cipher passes, or those that it refuses. */
  function Picked<M>(queue: seq<M>, oks: seq<bool>, n: nat, pass: bool): seq<M>
    requires n <= |queue|
  {
    if n == 0 then []
    else Picked(queue, oks, n - 1, pass) + if Accepts(oks, n - 1) == pass then [queue[n - 1]] else []
  }

  /** What an event does to the messages to `u`. A message waits without a session; with one it is sent if the
      cipher passes it, and refused otherwise. A key bundle does the same with all that wait (without a session
      they are all refused). A timeout drops them. */
  function Seen<M>(v: View<M>, e: Event<M>, u: Id): View<M> {
    if e.user != u then v
    else
      match e
      case Submit(_, text, ok) =>
        if !v.session then v.(queue := v.queue + [text])
        else if ok then v.(sent := v.sent + [text])
        else v.(failed := v.failed + [text])
      case Bundle(_, established, oks) =>
        if u == "" then v
        else
          var session := v.session || established;
          var passes, n := if session then oks else [], |v.queue|;
          var refused := Picked(v.queue, passes, n, false);
          View(session, [], v.sent + Picked(v.queue, passes, n, true), v.failed + refused, v.dropped,
               if refused != [] then v.told + [FailedToSend(|refused|, u)] else v.told)
      case Timeout(_) =>
        v.(queue := [], dropped := v.dropped + v.queue,
           told := if v.queue != [] then v.told + [TimedOut(u, |v.queue|)] else v.told)
      case Inbound(_) => v.(session := true)
  }

  function SeenBy<M>(session: bool, events: seq<Event<M>>, u: Id): View<M> {
    if events == [] then View(session, [], [], [], [], [])
    else Seen(SeenBy(session, events[..|events| - 1], u), events[|events| - 1], u)
  }

  lemma LostAppends<M>(d: Dm<M>, u: Id, text: M, v: Id)
    ensures To(Lost(d, u, text).failed, v) == To(d.failed, v) + if u == v then [text] else []
  {
    assert (d.failed + [(u, text)])[..|d.failed|] == d.failed;
  }

  lemma AboutSnoc(notices: seq<Notice>, n: Notice, u: Id)
    ensures About(notices + [n], u) == About(notices, u) + if n.user == u then [n] else []
  {
    assert (notices + [n])[..|notices|] == notices;
  }

  lemma {:induction false} FlushPicks<M>(d: Dm<M>, u: Id, queue: seq<M>, oks: seq<bool>, n: nat, v: Id)
    requires n <= |queue|
    ensures var r, passes := Flushed(d, u, queue, oks, n), if u in d.sessions then oks else [];
            && SentTo(r.wire, v) == SentTo(d.wire, v) + (if u == v then Picked(queue, passes, n, true) else [])
            && To(r.failed, v) == To(d.failed, v) + (if u == v then Picked(queue, passes, n, false) else [])
            && |r.failed| == |d.failed| + |Picked(queue, passes, n, false)|
  {
    hide SentTo, To;
    if n > 0 {
      FlushPicks(d, u, queue, oks, n - 1, v);
      var before, passes := Flushed(d, u, queue, oks, n - 1), if u in d.sessions then oks else [];
      SentAppends(before, u, queue[n - 1], v);
      LostAppends(before, u, queue[n - 1], v);
      Reassociate(SentTo(d.wire, v), Picked(queue, passes, n - 1, true), [queue[n - 1]]);
      Reassociate(To(d.failed, v), Picked(queue, passes, n - 1, false), [queue[n - 1]]);
    }
  }

  lemma SubmitSeen<M>(d: Dm<M>, w: Id, text: M, ok: bool, u: Id)
    requires !IsGroup(u)
    ensures ViewOf(Step(d, Submit(w, text, ok)), u) == Seen(ViewOf(d, u), Submit(w, text, ok), u)
  {
    hide SentTo, To, About;
    SentAppends(d, w, text, u);
    LostAppends(d, w, text, u);
    RequestIsNotSent(d.wire, w, u);
  }

  lemma TimeoutSeen<M>(d: Dm<M>, w: Id, u: Id)
    requires d.Valid()
    ensures ViewOf(Step(d, Timeout(w)), u) == Seen(ViewOf(d, u), Timeout(w), u)
  {
    hide SentTo, To, About;
    if w in d.pending {
      ToPairs(d.dropped, w, d.pending[w], u);
      AboutSnoc(d.notices, TimedOut(w, |d.pending[w]|), u);
      assert w != u ==> Step(d, Timeout(w)).Queue(u) == d.Queue(u);
    } else if w == u {
      assert To(d.dropped, u) + [] == To(d.dropped, u);
    }
  }

  lemma NothingFlushed<M>(v: View<M>)
    ensures v.sent + [] == v.sent && v.failed + [] == v.failed
  {
  }

  lemma BundleSeen<M>(d: Dm<M>, w: Id, established: bool, oks: seq<bool>, u: Id)
    ensures ViewOf(Step(d, Bundle(w, established, oks)), u) == Seen(ViewOf(d, u), Bundle(w, established, oks), u)
  {
    hide SentTo, To, About, Flushed;
    NothingFlushed(ViewOf(d, u));
    if w != "" && w in d.pending {
      var d1, q := Without(WithSession(d, w, established), w), d.pending[w];
      FlushedFrame(d1, w, q, oks, |q|);
      FlushPicks(d1, w, q, oks, |q|, u);
      hide Picked;
      var r := Flushed(d1, w, q, oks, |q|);
      var lost: int := |r.failed| - |d1.failed|;
      if lost > 0 { AboutSnoc(r.notices, FailedToSend(lost, w), u); }
      assert w != u ==> d1.Queue(u) == d.Queue(u);
    }
  }

  lemma StepSeen<M>(d: Dm<M>, e: Event<M>, u: Id)
    requires d.Valid() && !IsGroup(u)
    ensures ViewOf(Step(d, e), u) == Seen(ViewOf(d, u), e, u)
  {
    hide SentTo, To, About;
    match e
    case Submit(w, text, ok) => hide Step, Seen, ViewOf; SubmitSeen(d, w, text, ok, u);
    case Bundle(w, established, oks) => hide Step, Seen, ViewOf; BundleSeen(d, w, established, oks, u);
    case Timeout(w) => hide Step, Seen, ViewOf; TimeoutSeen(d, w, u);
    case Inbound(w) =>
  }

  /** In every run, whatever happens with other peers: which messages to a peer were sent, wait, were refused
      and timed out, in which order, and what the user was told, are as the events for that peer tell. */
  lemma {:induction false} RunIsSeen<M>(sessions: set<Id>, events: seq<Event<M>>, u: Id)
    requires !IsGroup(u)
    ensures ViewOf(Run(Start(sessions), events), u) == SeenBy(u in sessions, events, u)
  {
    hide Step, Seen;
    if events != [] {
      RunIsSeen(sessions, events[..|events| - 1], u);
      EntriesNeverEmpty(sessions, events[..|events| - 1]);
      StepSeen(Run(Start(sessions), events[..|events| - 1]), events[|events| - 1], u);
    }
  }

  /** So a message that the cipher does not refuse and no timeout finds is on the wire, or waits. */
  lemma NothingElseIsLost<M>(sessions: set<Id>, events: seq<Event<M>>, u: Id)
    requires !IsGroup(u)
    requires SeenBy(u in sessions, events, u).failed == [] && SeenBy(u in sessions, events, u).dropped == []
    ensures var d := Run(Start(sessions), events);
            multiset(SentTo(d.wire, u)) + multiset(d.Queue(u)) == multiset(Submitted(events, u))
  {
    hide Run, SentTo, To, Submitted, SeenBy;
    RunIsSeen(sessions, events, u);
    MessagesConserved(sessions, events, u);
  }
}
