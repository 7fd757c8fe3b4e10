/** `/join` and `/part` in `App`: commands are answered by responses that do not name their target, so
    the client matches them with two queues. */
module Commands {
  import opened Ids
  import opened Seqs
  import opened ChannelNames
  import opened NamesResponse
  import opened Users

  /** A message on its way to the server that will be answered. An authentication response is worth
      something only on the connection whose challenge it signs: the server refuses any other. */
  datatype Command = Join(target: Id) | Part(target: Id) | Hello | AuthResponse(connection: nat) | Other

  /** What a response makes the client do. */
  datatype Action =
    | OpenTab(target: Id) | CloseTab(target: Id) | ListUsers(channel: Id, users: seq<UserInfo>) | Raise | Nothing

  // ---------------------------------------------------------------------------------------------
  // The client's queues as an object
  // ---------------------------------------------------------------------------------------------

  class PendingCommands {
    var pendingJoins: seq<Id>
    var pendingParts: seq<Id>

    constructor ()
      ensures pendingJoins == [] && pendingParts == []
    {
      pendingJoins, pendingParts := [], [];
    }

    /** `has_pending_command` */
    method HasPending(queue: seq<Id>, target: Id) returns (r: bool)
      ensures r <==> target in queue
    {
      for k := 0 to |queue|
        invariant target !in queue[..k]
      {
        if queue[k] == target { return true; }
      }
      return false;
    }

    /** `/join`: the command to send, if any. */
    method RequestJoin(rawName: string, authenticated: bool) returns (sent: Option<Command>)
      modifies this`pendingJoins
      ensures !authenticated ==> sent == None && pendingJoins == old(pendingJoins)
      ensures authenticated ==>
                exists t :: IsTrimmed(rawName, t)
                  && pendingJoins == Requested(old(pendingJoins), JoinTarget(t))
                  && sent == if IsNew(old(pendingJoins), JoinTarget(t)) then Some(Join(JoinTarget(t).value)) else None
    {
      if !authenticated { return None; }
      var target := SanitizeChannelName(rawName);
      ghost var t :| IsTrimmed(rawName, t) && target == Sanitized(t);
      ServerIsServerName();
      if target.None? { return None; }
      if target.value != SERVER { ChannelNamesAreNotServer(target.value); }
      var isServer := IsServerChannel(target.value);
      if isServer { return None; }
      var pending := HasPending(pendingJoins, target.value);
      if pending { return None; }
      pendingJoins := pendingJoins + [target.value];
      sent := Some(Join(target.value));
    }

    /** `/part` leaves the active channel. */
    method RequestPart(active: Id, authenticated: bool) returns (sent: Option<Command>)
      modifies this`pendingParts
      ensures !authenticated ==> sent == None && pendingParts == old(pendingParts)
      ensures authenticated ==>
                && pendingParts == Requested(old(pendingParts), PartTarget(active))
                && sent == if IsNew(old(pendingParts), PartTarget(active)) then Some(Part(active)) else None
    {
      if !authenticated { return None; }
      var isServer := IsServerChannel(active);
      if active == "" || isServer { return None; }
      var pending := HasPending(pendingParts, active);
      if pending { return None; }
      pendingParts := pendingParts + [active];
      sent := Some(Part(active));
    }

    /** `handle_command_response`: the response names its command, in any case, but not its target. */
    method HandleResponse(rawCommand: string, success: bool, message: string) returns (action: Action)
      modifies this
      ensures Lowered(rawCommand) == "join" ==>
                pendingJoins == Rest(old(pendingJoins)) && pendingParts == old(pendingParts)
                && action == if success && old(pendingJoins) != [] then OpenTab(old(pendingJoins)[0]) else Nothing
      ensures Lowered(rawCommand) == "part" ==>
                pendingParts == Rest(old(pendingParts)) && pendingJoins == old(pendingJoins)
                && action == if success && old(pendingParts) != [] then CloseTab(old(pendingParts)[0]) else Nothing
      ensures Lowered(rawCommand) != "join" && Lowered(rawCommand) != "part" ==>
                pendingJoins == old(pendingJoins) && pendingParts == old(pendingParts)
                && action == if success && Lowered(rawCommand) == "names" then Shown(Parsed(message)) else Nothing
    {
      var command := AsciiLowerCopy(rawCommand);
      action := Nothing;
      if command == "join" {
        var target := None;
        if pendingJoins != [] {
          target := Some(pendingJoins[0]);
          pendingJoins := pendingJoins[1..];
        }
        if success && target.Some? { action := OpenTab(target.value); }
        return;
      }
      if command == "names" && success {
        var r := ParseNames(message);
        return Shown(r);
      }
      if command == "part" {
        var target := None;
        if pendingParts != [] {
          target := Some(pendingParts[0]);
          pendingParts := pendingParts[1..];
        }
        if success && target.Some? { action := CloseTab(target.value); }
      }
    }

    /** `clear_pending_channel_commands`, on disconnection. */
    method Clear()
      modifies this
      ensures pendingJoins == [] && pendingParts == []
    {
      pendingJoins, pendingParts := [], [];
    }
  }

  function Shown(r: Listing): Action {
    match r
    case Listed(channel, users) => ListUsers(channel, users)
    case NoHeader => Nothing
    case Throws => Raise
  }

  function Lowered(text: string): (r: string)
    ensures |r| == |text| && forall k | 0 <= k < |text| :: r[k] == Lower(text[k])
  {
    if text == "" then "" else [Lower(text[0])] + Lowered(text[1..])
  }

  /** `ascii_lower_copy` */
  method AsciiLowerCopy(text: string) returns (r: string)
    ensures r == Lowered(text)
  {
    r := text;
    for k := 0 to |text|
      invariant |r| == |text|
      invariant forall j | 0 <= j < |text| :: r[j] == if j < k then Lower(text[j]) else text[j]
    {
      r := r[k := Lower(r[k])];
    }
  }

  function Rest(queue: seq<Id>): seq<Id> { if queue == [] then [] else queue[1..] }

  /** The channel a trimmed argument of `/join` asks for. */
  function JoinTarget(trimmed: string): Option<Id> {
    var r := Sanitized(trimmed);
    if r == Some(SERVER) then None else r
  }

  function PartTarget(active: Id): Option<Id> {
    if active == "" || IsServerName(active) then None else Some(active)
  }

  /** A request is sent unless there is nothing to ask for or it is pending already. */
  predicate IsNew(queue: seq<Id>, target: Option<Id>) {
    target.Some? && target.value !in queue
  }

  function Requested(queue: seq<Id>, target: Option<Id>): seq<Id> {
    if IsNew(queue, target) then queue + [target.value] else queue
  }

  // ---------------------------------------------------------------------------------------------
  // Client, wire and server
  // ---------------------------------------------------------------------------------------------

  /** The client's queues and its authentication flag, the messages the server has still to answer, in
      order, and how many connections there have been. */
  datatype System = System(joins: seq<Id>, parts: seq<Id>, unanswered: seq<Command>,
                           authenticated: bool, connection: nat)

  function Start(): System { System([], [], [], false, 0) }

  /** The server answers each message once and in order; one that it ignores counts as refused. When a
      connection is lost, the first `taken` of the unanswered messages are lost with it. The others are
      still queued, and are written on the next connection, in front of its greeting. */
  datatype Event =
    | UserJoins(trimmed: string)
    | UserParts(active: Id)
    | UserOther
    | ServerAnswers(success: bool)
    | Reconnects(taken: nat)

  function Left(unanswered: seq<Command>, taken: nat): seq<Command> {
    if taken <= |unanswered| then unanswered[taken..] else []
  }

  function Handle(s: System, e: Event): System {
    match e
    case UserJoins(t) =>
      if !s.authenticated || !IsNew(s.joins, JoinTarget(t)) then s
      else s.(joins := Requested(s.joins, JoinTarget(t)), unanswered := s.unanswered + [Join(JoinTarget(t).value)])
    case UserParts(a) =>
      if !s.authenticated || !IsNew(s.parts, PartTarget(a)) then s
      else s.(parts := Requested(s.parts, PartTarget(a)), unanswered := s.unanswered + [Part(a)])
    case UserOther => s.(unanswered := s.unanswered + [Other])
    case ServerAnswers(success) => if s.unanswered == [] then s else Answered(s, success)
    case Reconnects(taken) => System([], [], Left(s.unanswered, taken) + [Hello], false, s.connection + 1)
  }

  /** The greeting is answered by a challenge, which the client signs at once. */
  function Answered(s: System, success: bool): System
    requires s.unanswered != []
  {
    var rest := s.unanswered[1..];
    match s.unanswered[0]
    case Join(_) => s.(joins := Rest(s.joins), unanswered := rest)
    case Part(_) => s.(parts := Rest(s.parts), unanswered := rest)
    case Hello => s.(unanswered := rest + [AuthResponse(s.connection)])
    case AuthResponse(c) =>
      s.(unanswered := rest, authenticated := s.authenticated || (success && c == s.connection))
    case Other => s.(unanswered := rest)
  }

  /** What the client does to its tabs when the next message is answered. */
  function ActsOn(s: System, success: bool): Action
    requires s.unanswered != []
  {
    match s.unanswered[0]
    case Join(_) => if success && s.joins != [] then OpenTab(s.joins[0]) else Nothing
    case Part(_) => if success && s.parts != [] then CloseTab(s.parts[0]) else Nothing
    case _ => Nothing
  }

  /** What the user who asked for it expects. */
  function Meant(c: Command, success: bool): Action {
    match c
    case Join(x) => if success then OpenTab(x) else Nothing
    case Part(x) => if success then CloseTab(x) else Nothing
    case _ => Nothing
  }

  predicate IsRequest(c: Command) { c.Join? || c.Part? }

  function Joins(cs: seq<Command>): seq<Id> {
    FlatMap((c: Command) => if c.Join? then [c.target] else [], cs)
  }

  function Parts(cs: seq<Command>): seq<Id> {
    FlatMap((c: Command) => if c.Part? then [c.target] else [], cs)
  }

  lemma JoinsSnoc(cs: seq<Command>, c: Command)
    ensures Joins(cs + [c]) == Joins(cs) + if c.Join? then [c.target] else []
    ensures Parts(cs + [c]) == Parts(cs) + if c.Part? then [c.target] else []
  {
    FlatMapSnoc((c: Command) => if c.Join? then [c.target] else [], cs, c);
    FlatMapSnoc((c: Command) => if c.Part? then [c.target] else [], cs, c);
  }

  lemma AnswerTakesFront(cs: seq<Command>)
    requires cs != []
    ensures Joins(cs[1..]) == if cs[0].Join? then Rest(Joins(cs)) else Joins(cs)
    ensures Parts(cs[1..]) == if cs[0].Part? then Rest(Parts(cs)) else Parts(cs)
    ensures cs[0].Join? ==> Joins(cs) != [] && Joins(cs)[0] == cs[0].target
    ensures cs[0].Part? ==> Parts(cs) != [] && Parts(cs)[0] == cs[0].target
  {
    assert Joins(cs) == (if cs[0].Join? then [cs[0].target] else []) + Joins(cs[1..]);
    assert Parts(cs) == (if cs[0].Part? then [cs[0].target] else []) + Parts(cs[1..]);
  }

  lemma {:induction false} NoRequestsIff(cs: seq<Command>)
    ensures Joins(cs) == [] && Parts(cs) == [] <==> forall k | 0 <= k < |cs| :: !IsRequest(cs[k])
  {
    if cs != [] {
      hide Joins, Parts;
      AnswerTakesFront(cs);
      NoRequestsIff(cs[1..]);
      assert cs == [cs[0]] + cs[1..];
    }
  }

  function Run(s: System, es: seq<Event>): System {
    if es == [] then s else Handle(Run(s, es[..|es| - 1]), es[|es| - 1])
  }

  // ---------------------------------------------------------------------------------------------
  // What every run keeps
  // ---------------------------------------------------------------------------------------------

  /** The queues are the targets of the unanswered requests of their kind. */
  ghost predicate Matches(s: System) {
    s.joins == Joins(s.unanswered) && s.parts == Parts(s.unanswered)
  }

  /** Requests are never behind a greeting, and behind a response to this connection's challenge only
      once one has been accepted. */
  ghost predicate InOrder(cs: seq<Command>, authenticated: bool, connection: nat) {
    && (forall i, j | 0 <= i < j < |cs| && cs[i].Hello? :: !IsRequest(cs[j]))
    && (forall i, j | 0 <= i < j < |cs| && cs[i] == AuthResponse(connection) ::
          !cs[j].Hello? && (IsRequest(cs[j]) ==> authenticated))
    && (forall i | 0 <= i < |cs| && cs[i].AuthResponse? :: cs[i].connection <= connection)
    && (authenticated ==> Hello !in cs)
  }

  ghost predicate NoDuplicates(s: seq<Id>) {
    forall i, j | 0 <= i < j < |s| :: s[i] != s[j]
  }

  /** Joins are for channel names, and no part is for the server tab; each channel is asked for once. */
  ghost predicate ProperTargets(s: System) {
    && NoDuplicates(s.joins) && NoDuplicates(s.parts)
    && (forall k | 0 <= k < |s.joins| :: IsChannelName(s.joins[k]))
    && (forall k | 0 <= k < |s.parts| :: s.parts[k] != "" && !IsServerName(s.parts[k]))
  }

  ghost predicate Correlated(s: System) {
    && InOrder(s.unanswered, s.authenticated, s.connection) && ProperTargets(s)
    && if s.authenticated then Matches(s) else s.joins == [] && s.parts == []
  }

  lemma HandleKeepsProper(s: System, e: Event)
    requires ProperTargets(s)
    ensures ProperTargets(Handle(s, e))
  {
    hide IsChannelName, IsServerName, Sanitized, Left;
    if e.UserJoins? { TargetsAreNames(e.trimmed); }
  }

  lemma TargetsAreNames(t: string)
    ensures JoinTarget(t).Some? ==> IsChannelName(JoinTarget(t).value)
  {
  }

  lemma OrderSnoc(cs: seq<Command>, c: Command, authenticated: bool, connection: nat)
    requires InOrder(cs, authenticated, connection)
    requires IsRequest(c) ==> authenticated
    requires c.AuthResponse? ==> c.connection <= connection
    requires !c.Hello?
    ensures InOrder(cs + [c], authenticated, connection)
  {
  }

  lemma OrderOfRest(cs: seq<Command>, authenticated: bool, connection: nat)
    requires cs != [] && InOrder(cs, authenticated, connection)
    ensures InOrder(cs[1..], authenticated, connection)
    ensures cs[0] == AuthResponse(connection) ==> InOrder(cs[1..], true, connection)
  {
  }

  lemma OrderOfLeft(cs: seq<Command>, taken: nat, authenticated: bool, connection: nat)
    requires InOrder(cs, authenticated, connection)
    ensures InOrder(Left(cs, taken) + [Hello], false, connection + 1)
  {
    var left := Left(cs, taken);
    assert forall i | 0 <= i < |left| :: left[i] == cs[taken + i];
  }

  lemma HandleKeepsOrder(s: System, e: Event)
    requires InOrder(s.unanswered, s.authenticated, s.connection)
    ensures InOrder(Handle(s, e).unanswered, Handle(s, e).authenticated, Handle(s, e).connection)
  {
    hide InOrder, JoinTarget, PartTarget, Requested, Rest, Left;
    match e
    case UserJoins(t) =>
      if s.authenticated && IsNew(s.joins, JoinTarget(t)) {
        OrderSnoc(s.unanswered, Join(JoinTarget(t).value), s.authenticated, s.connection);
      }
    case UserParts(a) =>
      if s.authenticated { OrderSnoc(s.unanswered, Part(a), s.authenticated, s.connection); }
    case UserOther => OrderSnoc(s.unanswered, Other, s.authenticated, s.connection);
    case ServerAnswers(_) => if s.unanswered != [] { AnsweredKeepsOrder(s, e.success); }
    case Reconnects(taken) => OrderOfLeft(s.unanswered, taken, s.authenticated, s.connection);
  }

  lemma AnsweredKeepsOrder(s: System, success: bool)
    requires s.unanswered != [] && InOrder(s.unanswered, s.authenticated, s.connection)
    ensures InOrder(Answered(s, success).unanswered, Answered(s, success).authenticated, s.connection)
  {
    hide InOrder, Rest;
    OrderOfRest(s.unanswered, s.authenticated, s.connection);
    if s.unanswered[0].Hello? {
      OrderSnoc(s.unanswered[1..], AuthResponse(s.connection), s.authenticated, s.connection);
    }
  }

  /** Whether or not the client is authenticated, no event but a new connection upsets the match. */
  lemma HandleKeepsMatch(s: System, e: Event)
    requires Matches(s) && !e.Reconnects?
    ensures Matches(Handle(s, e))
  {
    hide Joins, Parts, JoinTarget;
    match e
    case UserJoins(t) => if IsNew(s.joins, JoinTarget(t)) { JoinsSnoc(s.unanswered, Join(JoinTarget(t).value)); }
    case UserParts(a) => if IsNew(s.parts, PartTarget(a)) { JoinsSnoc(s.unanswered, Part(a)); }
    case UserOther => JoinsSnoc(s.unanswered, Other);
    case ServerAnswers(_) =>
      if s.unanswered != [] {
        AnswerTakesFront(s.unanswered);
        JoinsSnoc(s.unanswered[1..], AuthResponse(s.connection));
      }
  }

  /** When a response is accepted no request is under way. */
  lemma NothingUnderWay(s: System)
    requires Correlated(s) && !s.authenticated && s.unanswered != [] && s.unanswered[0] == AuthResponse(s.connection)
    ensures Matches(Handle(s, ServerAnswers(true)))
  {
    hide Joins, Parts;
    NoRequestsIff(s.unanswered[1..]);
  }

  lemma HandleKeepsCorrelated(s: System, e: Event)
    requires Correlated(s)
    ensures Correlated(Handle(s, e))
  {
    HandleKeepsOrder(s, e);
    HandleKeepsProper(s, e);
    hide InOrder, ProperTargets, Matches, JoinTarget, PartTarget, Left;
    if s.authenticated && !e.Reconnects? {
      HandleKeepsMatch(s, e);
    } else if Handle(s, e).authenticated {
      NothingUnderWay(s);
    }
  }

  lemma StartIsCorrelated()
    ensures Correlated(Start())
  {
  }

  /** In every run, whatever is left over from one connection to the next: while the client is
      authenticated its queues are the targets of the unanswered requests, without duplicates, and
      otherwise they are empty. */
  lemma {:induction false} QueuesMatchUnanswered(es: seq<Event>)
    ensures Correlated(Run(Start(), es))
  {
    hide Handle, Correlated;
    if es != [] {
      QueuesMatchUnanswered(es[..|es| - 1]);
      HandleKeepsCorrelated(Run(Start(), es[..|es| - 1]), es[|es| - 1]);
    } else {
      StartIsCorrelated();
    }
  }

  /** In every run a response acts on the target of its own request, or, if the request was left over
      from an earlier connection, on nothing. */
  lemma ResponsesFindTheirTarget(es: seq<Event>, success: bool)
    requires Run(Start(), es).unanswered != []
    ensures var s := Run(Start(), es);
            ActsOn(s, success) == if s.authenticated then Meant(s.unanswered[0], success) else Nothing
  {
    hide Run, Joins, Parts, InOrder, ProperTargets;
    QueuesMatchUnanswered(es);
    AnswerTakesFront(Run(Start(), es).unanswered);
  }

  /** In every run a response opens only channel tabs and never closes the server tab. */
  lemma ActionsNameChannels(es: seq<Event>, success: bool)
    requires Run(Start(), es).unanswered != []
    ensures match ActsOn(Run(Start(), es), success)
            case OpenTab(x) => IsChannelName(x)
            case CloseTab(x) => x != "" && !IsServerName(x)
            case _ => true
  {
    hide Run, Matches, InOrder, IsChannelName, IsServerName;
    QueuesMatchUnanswered(es);
  }

  // ---------------------------------------------------------------------------------------------
  // When something is sent
  // ---------------------------------------------------------------------------------------------

  /** A join is sent exactly when the client is authenticated, the name stands for a channel, as it is or with
      the '#' that it lacks, and no join for it is under way; otherwise nothing changes. */
  lemma JoinIsSentIff(s: System, t: string, x: Id)
    ensures Handle(s, UserJoins(t)).unanswered == s.unanswered + [Join(x)] <==>
              s.authenticated && x !in s.joins && !IsServerName(t) && IsChannelName(x)
              && (x == t || (x == "#" + t && t != "" && t[0] != '#'))
    ensures Handle(s, UserJoins(t)) == s
            || exists y :: Handle(s, UserJoins(t)) == s.(joins := s.joins + [y], unanswered := s.unanswered + [Join(y)])
  {
    SanitizedIff(t, x);
    if IsChannelName(x) { ChannelNamesAreNotServer(x); }
    ServerIsServerName();
    hide Sanitized, IsServerName, IsChannelName;
    assert (s.unanswered + [Join(x)])[|s.unanswered|] == Join(x);
    if s.authenticated && IsNew(s.joins, JoinTarget(t)) {
      assert (s.unanswered + [Join(JoinTarget(t).value)])[|s.unanswered|] == Join(JoinTarget(t).value);
    }
  }

  lemma PartIsSentIff(s: System, a: Id)
    ensures Handle(s, UserParts(a)).unanswered == s.unanswered + [Part(a)] <==>
              s.authenticated && a != "" && !IsServerName(a) && a !in s.parts
    ensures Handle(s, UserParts(a)) == s
            || Handle(s, UserParts(a)) == s.(parts := s.parts + [a], unanswered := s.unanswered + [Part(a)])
  {
    hide IsServerName;
    assert |s.unanswered + [Part(a)]| > |s.unanswered|;
  }

  /** The client is authenticated exactly when, since the last new connection, a response to that connection's
      challenge has been accepted. */
  ghost predicate Accepted(es: seq<Event>) {
    es != []
    && var init, e := es[..|es| - 1], es[|es| - 1];
       var s := Run(Start(), init);
       match e
       case ServerAnswers(success) =>
         Accepted(init) || (success && s.unanswered != [] && s.unanswered[0] == AuthResponse(Connections(init)))
       case Reconnects(_) => false
       case _ => Accepted(init)
  }

  function Connections(es: seq<Event>): nat {
    if es == [] then 0 else Connections(es[..|es| - 1]) + if es[|es| - 1].Reconnects? then 1 else 0
  }

  lemma {:induction false} AuthenticatedIff(es: seq<Event>)
    ensures Run(Start(), es).authenticated <==> Accepted(es)
    ensures Run(Start(), es).connection == Connections(es)
  {
    hide JoinTarget, PartTarget, Left;
    if es != [] { AuthenticatedIff(es[..|es| - 1]); }
  }

  // ---------------------------------------------------------------------------------------------
  // When a new connection loses a response
  // ---------------------------------------------------------------------------------------------

  ghost predicate NoReconnect(es: seq<Event>) { forall k | 0 <= k < |es| :: !es[k].Reconnects? }

  /** Every response on this connection does what its user expects. */
  ghost predicate AnswersAsMeant(s: System) {
    forall more, success ::
      NoReconnect(more) && Run(s, more).unanswered != [] ==>
        ActsOn(Run(s, more), success) == Meant(Run(s, more).unanswered[0], success)
  }

  lemma {:induction false} RunKeepsMatch(s: System, more: seq<Event>)
    requires Matches(s) && NoReconnect(more)
    ensures Matches(Run(s, more))
  {
    hide Handle, Matches;
    if more != [] {
      RunKeepsMatch(s, more[..|more| - 1]);
      HandleKeepsMatch(Run(s, more[..|more| - 1]), more[|more| - 1]);
    }
  }

  function Answers(n: nat): (es: seq<Event>)
    ensures |es| == n && forall k | 0 <= k < n :: es[k] == ServerAnswers(true)
  {
    seq(n, _ => ServerAnswers(true))
  }

  /** What was left over is answered first, with the queues empty. */
  lemma {:induction false} LeftoversComeFirst(s: System, n: nat)
    requires s.joins == [] && s.parts == [] && n <= |s.unanswered|
    ensures var r := Run(s, Answers(n));
            r.joins == [] && r.parts == [] && s.unanswered[n..] <= r.unanswered
  {
    if n > 0 {
      LeftoversComeFirst(s, n - 1);
      assert Answers(n)[..n - 1] == Answers(n - 1);
      var r := Run(s, Answers(n - 1));
      assert s.unanswered[n - 1..][1..] == s.unanswered[n..];
      assert r.unanswered[0] == s.unanswered[n - 1];
      assert s.unanswered[n..] <= r.unanswered[1..];
    } else {
      assert Answers(0) == [];
    }
  }

  /** Every response on a new connection does what its user expects exactly when no join and no part was
      left over for it. */
  lemma ReconnectIsCleanIff(s: System, taken: nat)
    ensures AnswersAsMeant(Handle(s, Reconnects(taken)))
            <==> Joins(Left(s.unanswered, taken)) == [] && Parts(Left(s.unanswered, taken)) == []
  {
    var left, r := Left(s.unanswered, taken), Handle(s, Reconnects(taken));
    NoRequestsIff(left);
    JoinsSnoc(left, Hello);
    hide Joins, Parts, Run, Left;
    if Joins(left) == [] && Parts(left) == [] {
      forall more, success | NoReconnect(more) && Run(r, more).unanswered != []
        ensures ActsOn(Run(r, more), success) == Meant(Run(r, more).unanswered[0], success)
      {
        RunKeepsMatch(r, more);
        AnswerTakesFront(Run(r, more).unanswered);
      }
    } else {
      var k :| 0 <= k < |left| && IsRequest(left[k]);
      LeftoversComeFirst(r, k);
      var f := Run(r, Answers(k));
      assert r.unanswered[k..][0] == left[k];
      assert f.unanswered != [] && f.unanswered[0] == left[k];
      assert NoReconnect(Answers(k)) && ActsOn(f, true) == Nothing != Meant(f.unanswered[0], true);
    }
  }

  /** It can happen: a join is sent, the connection is lost before it is written, and its answer on the
      next one opens no tab. */
  lemma LeftoverJoinIsIgnored()
    ensures var s := Run(Start(),
                          [Reconnects(0), ServerAnswers(true), ServerAnswers(true), UserJoins("#a"), Reconnects(0)]);
            s.unanswered == [Join("#a"), Hello] && Meant(s.unanswered[0], true) == OpenTab("#a")
            && ActsOn(s, true) == Nothing
  {
    var es := [Reconnects(0), ServerAnswers(true), ServerAnswers(true), UserJoins("#a"), Reconnects(0)];
    assert es[..4][..3] == es[..3] && es[..3][..2] == es[..2] && es[..2][..1] == es[..1] && es[..1][..0] == [];
    assert Run(Start(), es[..1]) == System([], [], [Hello], false, 1);
    assert Run(Start(), es[..2]) == System([], [], [AuthResponse(1)], false, 1);
    assert Run(Start(), es[..3]) == System([], [], [], true, 1);
    assert IsChannelName("#a");
    assert JoinTarget("#a") == Some("#a");
    assert Run(Start(), es[..4]) == System(["#a"], [], [Join("#a")], true, 1);
    assert es[..|es| - 1] == es[..4];
  }
}
