/** The channel tabs of `AppState`: a bounded message log per channel, unread counts, and the active
    channel with its fallback. */
module Channels {
  import opened Ids
  import opened Seqs

  const MAX_MESSAGES := 1000

  datatype Channel<M> = Channel(messages: seq<M>, unread: nat, scroll: int)

  function Empty<M>(): Channel<M> { Channel([], 0, 0) }

  datatype Tabs<M> = Tabs(channels: map<Id, Channel<M>>, active: Id) {
    /** `channel_snapshot` */
    function Of(c: Id): Channel<M> { if c in channels then channels[c] else Empty() }
  }

  function Last<T>(s: seq<T>, n: nat): seq<T> { if |s| <= n then s else s[|s| - n..] }

  // ---------------------------------------------------------------------------------------------
  // What each mutator does
  // ---------------------------------------------------------------------------------------------

  datatype Change<M> =
    | Ensure(c: Id) | Push(c: Id, msg: M) | Activate(c: Id)
    | Remove(c: Id, pick: Id)  // `pick`: the first channel of the unordered map, if one is needed
    | ScrollUp(c: Id, lines: int) | ScrollDown(c: Id, lines: int) | ScrollToBottom(c: Id) | MarkRead(c: Id)

  function WithMessage<M>(ch: Channel<M>, msg: M, seen: bool): Channel<M> {
    Channel(Last(ch.messages + [msg], MAX_MESSAGES),
            if seen && ch.scroll <= 0 then ch.unread else ch.unread + 1, ch.scroll)
  }

  function Fallback<M>(rest: map<Id, Channel<M>>, pick: Id): Id {
    if SERVER in rest then SERVER else if rest != map[] then pick else ""
  }

  function Adjust<M>(t: Tabs<M>, c: Id, f: Channel<M> -> Channel<M>): Tabs<M> {
    if c in t.channels then t.(channels := t.channels[c := f(t.channels[c])]) else t
  }

  function Read<M>(ch: Channel<M>): Channel<M> { ch.(unread := 0) }

  function Apply<M>(t: Tabs<M>, x: Change<M>): Tabs<M> {
    match x
    case Ensure(c) => Tabs(t.channels[c := t.Of(c)], if t.active == "" then c else t.active)
    case Push(c, msg) => t.(channels := t.channels[c := WithMessage(t.Of(c), msg, c == t.active)])
    case Activate(c) => Adjust(t, c, Read).(active := c)
    case Remove(c, pick) =>
      var rest := t.channels - {c};
      Tabs(rest, if t.active == c then Fallback(rest, pick) else t.active)
    case ScrollUp(c, lines) => Adjust(t, c, (ch: Channel<M>) => ch.(scroll := ch.scroll + lines))
    case ScrollDown(c, lines) =>
      Adjust(t, c, (ch: Channel<M>) => ch.(scroll := Max(0, ch.scroll - lines)))
    case ScrollToBottom(c) => Adjust(t, c, (ch: Channel<M>) => ch.(scroll := 0))
    case MarkRead(c) => Adjust(t, c, Read)
  }

  function Run<M>(t: Tabs<M>, xs: seq<Change<M>>): Tabs<M> {
    if xs == [] then t else Apply(Run(t, xs[..|xs| - 1]), xs[|xs| - 1])
  }

  function NoTabs<M>(): Tabs<M> { Tabs(map[], "") }

  // ---------------------------------------------------------------------------------------------
  // The log and the unread count, told from the history
  // ---------------------------------------------------------------------------------------------

  /** The messages pushed to `c` since it was last removed. */
  function PushedSince<M>(xs: seq<Change<M>>, c: Id): seq<M> {
    if xs == [] then []
    else
      var before, x := PushedSince(xs[..|xs| - 1], c), xs[|xs| - 1];
      if x.Push? && x.c == c then before + [x.msg]
      else if x.Remove? && x.c == c then []
      else before
  }

  /** How many of them came while `c` was not active or was scrolled up, since it was last activated or
      marked as read. */
  function MissedSince<M>(xs: seq<Change<M>>, c: Id): nat {
    if xs == [] then 0
    else
      var init, x := xs[..|xs| - 1], xs[|xs| - 1];
      var t := Run(NoTabs(), init);
      if x.Push? && x.c == c then MissedSince(init, c) + (if c != t.active || t.Of(c).scroll > 0 then 1 else 0)
      else if (x.Remove? || x.Activate? || x.MarkRead?) && x.c == c then 0
      else MissedSince(init, c)
  }

  /** What a change does to the channel it names. */
  function Effect<M>(ch: Channel<M>, x: Change<M>, active: bool): Channel<M> {
    match x
    case Ensure(_) => ch
    case Push(_, msg) => WithMessage(ch, msg, active)
    case Activate(_) => ch.(unread := 0)
    case Remove(_, _) => Empty()
    case ScrollUp(_, lines) => ch.(scroll := ch.scroll + lines)
    case ScrollDown(_, lines) => ch.(scroll := Max(0, ch.scroll - lines))
    case ScrollToBottom(_) => ch.(scroll := 0)
    case MarkRead(_) => ch.(unread := 0)
  }

  /** A change leaves every other channel's log and unread count alone. */
  lemma ApplyIsLocal<M>(t: Tabs<M>, x: Change<M>, c: Id)
    ensures var ch := Apply(t, x).Of(c); var e := if x.c == c then Effect(t.Of(c), x, c == t.active) else t.Of(c);
            ch.messages == e.messages && ch.unread == e.unread
  {
  }

  lemma LastSnoc<T>(s: seq<T>, x: T, n: nat)
    requires n > 0
    ensures Last(Last(s, n) + [x], n) == Last(s + [x], n)
  {
  }

  lemma {:induction false} LogIsLast<M>(xs: seq<Change<M>>, c: Id)
    ensures var ch := Run(NoTabs(), xs).Of(c);
            ch.messages == Last(PushedSince(xs, c), MAX_MESSAGES) && ch.unread == MissedSince(xs, c)
  {
    if xs != [] {
      var init, x := xs[..|xs| - 1], xs[|xs| - 1];
      LogIsLast(init, c);
      ApplyIsLocal(Run(NoTabs(), init), x, c);
      if x.Push? { LastSnoc(PushedSince(init, c), x.msg, MAX_MESSAGES); }
      hide Apply, Last;
    }
  }

  /** In every run a channel's log is the last thousand of the messages pushed since it was created, and
      its unread count is the number of missed ones. */
  lemma LogIsLatestPushed<M>(xs: seq<Change<M>>, c: Id)
    ensures var ch, pushed := Run(NoTabs(), xs).Of(c), PushedSince(xs, c);
            ch.messages == pushed[Max(0, |pushed| - 1000)..] && ch.unread == MissedSince(xs, c)
  {
    hide Run, PushedSince, MissedSince;
    LogIsLast(xs, c);
  }

  // ---------------------------------------------------------------------------------------------
  // Which channels are there, how far they are scrolled and which is active, told from the history
  // ---------------------------------------------------------------------------------------------

  /** Ensured or pushed to since it was last removed. */
  predicate IsThere<M>(xs: seq<Change<M>>, c: Id) {
    xs != []
    && var x := xs[|xs| - 1];
       if (x.Ensure? || x.Push?) && x.c == c then true
       else if x.Remove? && x.c == c then false
       else IsThere(xs[..|xs| - 1], c)
  }

  function ScrolledTo<M>(xs: seq<Change<M>>, c: Id): int {
    if xs == [] then 0
    else
      var init, x := xs[..|xs| - 1], xs[|xs| - 1];
      var before := ScrolledTo(init, c);
      if x.c != c || !IsThere(init, c) then before
      else
        match x
        case ScrollUp(_, lines) => before + lines
        case ScrollDown(_, lines) => if before > lines then before - lines else 0
        case ScrollToBottom(_) => 0
        case Remove(_, _) => 0
        case _ => before
  }

  /** The active channel when `c` is removed: the server tab, else any other there is, else none. */
  ghost function AfterRemoval<M>(xs: seq<Change<M>>, c: Id, pick: Id): Id {
    if c != SERVER && IsThere(xs, SERVER) then SERVER
    else if exists other: Id :: other != c && IsThere(xs, other) then pick
    else ""
  }

  ghost function ActiveNow<M>(xs: seq<Change<M>>): Id {
    if xs == [] then ""
    else
      var init := xs[..|xs| - 1];
      var before := ActiveNow(init);
      match xs[|xs| - 1]
      case Ensure(c) => if before == "" then c else before
      case Activate(c) => c
      case Remove(c, pick) => if before == c then AfterRemoval(init, c, pick) else before
      case _ => before
  }

  lemma {:induction false} KeysAreThere<M>(xs: seq<Change<M>>, c: Id)
    ensures c in Run(NoTabs(), xs).channels <==> IsThere(xs, c)
  {
    if xs != [] { KeysAreThere(xs[..|xs| - 1], c); }
  }

  lemma {:induction false} ScrollIsTold<M>(xs: seq<Change<M>>, c: Id)
    ensures Run(NoTabs(), xs).Of(c).scroll == ScrolledTo(xs, c)
  {
    if xs != [] {
      ScrollIsTold(xs[..|xs| - 1], c);
      KeysAreThere(xs[..|xs| - 1], c);
    }
  }

  lemma FallbackIsTold<M>(xs: seq<Change<M>>, c: Id, pick: Id)
    ensures Fallback(Run(NoTabs(), xs).channels - {c}, pick) == AfterRemoval(xs, c, pick)
  {
    var t := Run(NoTabs(), xs);
    var rest := t.channels - {c};
    KeysAreThere(xs, SERVER);
    if rest != map[] {
      var other :| other in rest;
      KeysAreThere(xs, other);
    } else {
      forall other: Id | other != c
        ensures !IsThere(xs, other)
      {
        KeysAreThere(xs, other);
        assert other !in rest;
      }
    }
  }

  /** In every run the channels that are there, their scroll offsets and the active channel are what the
      history tells. */
  lemma {:induction false} TabsAreTold<M>(xs: seq<Change<M>>, c: Id)
    ensures var t := Run(NoTabs(), xs);
            (c in t.channels <==> IsThere(xs, c)) && t.Of(c).scroll == ScrolledTo(xs, c) && t.active == ActiveNow(xs)
  {
    KeysAreThere(xs, c);
    ScrollIsTold(xs, c);
    if xs != [] {
      var init, x := xs[..|xs| - 1], xs[|xs| - 1];
      TabsAreTold(init, c);
      if x.Remove? { FallbackIsTold(init, x.c, x.pick); }
      hide IsThere, ScrolledTo, AfterRemoval, Fallback;
    }
  }

  // ---------------------------------------------------------------------------------------------
  // The tabs as an object
  // ---------------------------------------------------------------------------------------------

  class ChannelTabs<M> {
    var channels: map<Id, Channel<M>>
    var activeChannel: Id

    function State(): Tabs<M>
      reads this
    {
      Tabs(channels, activeChannel)
    }

    constructor ()
      ensures State() == NoTabs()
    {
      channels, activeChannel := map[], "";
    }

    method EnsureChannel(c: Id)
      modifies this
      ensures State() == Apply(old(State()), Ensure(c))
    {
      if c !in channels { channels := channels[c := Channel([], 0, 0)]; }
      assert channels == old(channels)[c := old(State()).Of(c)];
      if activeChannel == "" { activeChannel := c; }
    }

    /** The log holds at most a thousand messages before the call. */
    method PushMessage(c: Id, msg: M)
      requires forall k | k in channels :: |channels[k].messages| <= MAX_MESSAGES
      modifies this`channels
      ensures State() == Apply(old(State()), Push(c, msg))
      ensures forall k | k in channels :: |channels[k].messages| <= MAX_MESSAGES
    {
      var ch := if c in channels then channels[c] else Channel([], 0, 0);
      ch := ch.(messages := ch.messages + [msg]);
      if |ch.messages| > MAX_MESSAGES { ch := ch.(messages := ch.messages[1..]); }
      if c != activeChannel || ch.scroll > 0 { ch := ch.(unread := ch.unread + 1); }
      channels := channels[c := ch];
    }

    method SetActiveChannel(c: Id)
      modifies this
      ensures State() == Apply(old(State()), Activate(c))
    {
      activeChannel := c;
      if c in channels { channels := channels[c := channels[c].(unread := 0)]; }
    }

    /** Which channel comes first in the unordered map is not determined. */
    method RemoveChannel(c: Id)
      modifies this
      ensures State() == Apply(old(State()), Remove(c, activeChannel))
      ensures old(activeChannel) == c ==> activeChannel in channels || (channels == map[] && activeChannel == "")
    {
      channels := channels - {c};
      if activeChannel == c {
        if SERVER in channels {
          activeChannel := SERVER;
        } else if channels != map[] {
          var first :| first in channels;
          activeChannel := first;
        } else {
          activeChannel := "";
        }
      }
    }

    method ScrollUp(c: Id, lines: int)
      modifies this`channels
      ensures State() == Apply(old(State()), Change.ScrollUp(c, lines))
    {
      if c in channels { channels := channels[c := channels[c].(scroll := channels[c].scroll + lines)]; }
    }

    method ScrollDown(c: Id, lines: int)
      modifies this`channels
      ensures State() == Apply(old(State()), Change.ScrollDown(c, lines))
    {
      if c in channels {
        channels := channels[c := channels[c].(scroll := Max(0, channels[c].scroll - lines))];
      }
    }

    method ScrollToBottom(c: Id)
      modifies this`channels
      ensures State() == Apply(old(State()), Change.ScrollToBottom(c))
    {
      if c in channels { channels := channels[c := channels[c].(scroll := 0)]; }
    }

    method MarkRead(c: Id)
      modifies this`channels
      ensures State() == Apply(old(State()), Change.MarkRead(c))
    {
      if c in channels { channels := channels[c := channels[c].(unread := 0)]; }
    }
  }
}
