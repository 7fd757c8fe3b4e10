/** What reaches the tabs from the user, the network and the interface's own queue: the active tab over every
    run, the tab without a name, and the tabs that cycling reaches. */
module Screens {
  import opened Ids
  import opened ChannelNames
  import opened Channels
  import opened TabOrder

  // ---------------------------------------------------------------------------------------------
  // Tasks and events
  // ---------------------------------------------------------------------------------------------

  /** What is posted to the interface: answers to `/join` and `/part`; notices, for the server tab if they
      name none; messages and voice notices that go to a tab whether or not it is there; and voice notices
      for the tab that is active when they run. A task that posts a notice in its turn counts as two. */
  datatype UiTask<M> =
    | OpenTab(c: Id) | CloseTab(c: Id) | Say(c: Id, msg: M, activate: bool) | PushTo(c: Id, msg: M) | PushHere(msg: M)

  /** The tabs, and the tasks for the next drains (which run in the order of posting, by
      `UiQueue.RunOrderIsPostOrder`). */
  datatype Screen<M> = Screen(tabs: Tabs<M>, posted: seq<UiTask<M>>)

  function Named(c: Id): Id { if c == "" then SERVER else c }

  function Opened<M>(t: Tabs<M>, c: Id): Tabs<M> { Apply(Apply(t, Ensure(c)), Activate(c)) }

  function RunTask<M>(t: Tabs<M>, task: UiTask<M>): Tabs<M> {
    match task
    case OpenTab(c) => Opened(t, c)
    case CloseTab(c) => Apply(t, Remove(c, SERVER))
    case Say(c, msg, activate) =>
      Apply(if activate then Opened(t, Named(c)) else Apply(t, Ensure(Named(c))), Push(Named(c), msg))
    case PushTo(c, msg) => Apply(t, Push(c, msg))
    case PushHere(msg) => Apply(t, Push(Named(t.active), msg))
  }

  /** What reaches the tabs: tasks posted and run, incoming chat, `/msg`, chat and `/me` to the active tab,
      switching by index, by click and by cycling, and scrolling. Switching says so in a notice. */
  datatype Event<M> =
    | Post(task: UiTask<M>) | RunNext
    | Chat(c: Id, msg: M) | MessageTo(c: Id, msg: M, refusal: M) | SendChat(msg: M, refusal: M) | SendAction(msg: M)
    | SelectIndex(index: int, notice: M) | Click(index: int) | CycleTabs(forward: bool, notice: M)
    | Scrolled(x: Change<M>)

  /** By `Commands.ActionsNameChannels`; and a word of a command line is never empty. */
  predicate IsProper<M>(task: UiTask<M>) {
    match task
    case OpenTab(c) => IsChannelName(c)
    case CloseTab(c) => c != "" && !IsServerName(c)
    case _ => true
  }

  predicate CanHappen<M>(e: Event<M>) {
    match e
    case Post(task) => IsProper(task)
    case MessageTo(c, _, _) => c != ""
    case Scrolled(x) => x.ScrollUp? || x.ScrollDown? || x.ScrollToBottom? || x.MarkRead?
    case _ => true
  }

  /** `push_system_msg` */
  function Notified<M>(s: Screen<M>, msg: M): Screen<M> {
    s.(posted := s.posted + [Say(s.tabs.active, msg, false)])
  }

  /** `send_chat`: the server tab and no tab take no messages. */
  function Sent<M>(s: Screen<M>, msg: M, refusal: M): Screen<M> {
    if s.tabs.active == "" || IsServerName(s.tabs.active) then Notified(s, refusal)
    else s.(tabs := Apply(s.tabs, Push(s.tabs.active, msg)))
  }

  function Switched<M>(s: Screen<M>, c: Id, notice: M): Screen<M> {
    Notified(s.(tabs := SwitchTo(s.tabs, c)), notice)
  }

  function Clicked<M>(t: Tabs<M>, c: Id): Tabs<M> { Apply(Apply(t, Activate(c)), MarkRead(c)) }

  ghost function Handle<M>(s: Screen<M>, e: Event<M>): Screen<M> {
    var t, list := s.tabs, TabList(s.tabs.channels.Keys);
    match e
    case Post(task) => s.(posted := s.posted + [task])
    case RunNext => if s.posted == [] then s else Screen(RunTask(t, s.posted[0]), s.posted[1..])
    case Chat(c, msg) => Screen(Apply(t, Ensure(c)), s.posted + [PushTo(c, msg)])
    case MessageTo(c, msg, refusal) => Sent(s.(tabs := Opened(t, c)), msg, refusal)
    case SendChat(msg, refusal) => Sent(s, msg, refusal)
    case SendAction(msg) => s.(tabs := Apply(t, Push(if t.active == "" then "#general" else t.active, msg)))
    case SelectIndex(i, n) => if 0 <= i < |list| then Switched(s, list[i], n) else s
    case Click(i) => if 0 <= i < |list| then s.(tabs := Clicked(t, list[i])) else s
    case CycleTabs(forward, n) => if list == [] then s else Notified(s.(tabs := Cycle(t, forward)), n)
    case Scrolled(x) => s.(tabs := Apply(t, x))
  }

  ghost function After<M>(s: Screen<M>, es: seq<Event<M>>): Screen<M> {
    if es == [] then s else Handle(After(s, es[..|es| - 1]), es[|es| - 1])
  }

  function Start<M>(): Screen<M> { Screen(Apply(NoTabs(), Ensure(SERVER)), []) }

  // ---------------------------------------------------------------------------------------------
  // What tasks and events do, as one sees it
  // ---------------------------------------------------------------------------------------------

  ghost predicate SameLogs<M>(t: Tabs<M>, r: Tabs<M>) {
    forall x: Id :: r.Of(x).messages == t.Of(x).messages
  }

  /** One more message in the log of `c`, which keeps the last thousand; nothing else in any log changes. */
  ghost predicate AddsTo<M>(t: Tabs<M>, r: Tabs<M>, c: Id, msg: M) {
    && (forall x: Id | x != c :: r.Of(x).messages == t.Of(x).messages)
    && var all := t.Of(c).messages + [msg];
       r.Of(c).messages == if |all| <= 1000 then all else all[|all| - 1000..]
  }

  lemma EnsureDoes<M>(t: Tabs<M>, c: Id)
    ensures var r := Apply(t, Ensure(c));
            r.channels.Keys == t.channels.Keys + {c} && r.active == (if t.active == "" then c else t.active)
            && SameLogs(t, r)
  {
  }

  lemma OpenedDoes<M>(t: Tabs<M>, c: Id)
    ensures var r := Opened(t, c);
            r.channels.Keys == t.channels.Keys + {c} && r.active == c && SameLogs(t, r) && r.Of(c).unread == 0
  {
    EnsureDoes(t, c);
  }

  lemma PushDoes<M>(t: Tabs<M>, c: Id, msg: M)
    ensures var r := Apply(t, Push(c, msg));
            r.channels.Keys == t.channels.Keys + {c} && r.active == t.active && AddsTo(t, r, c, msg)
  {
  }

  lemma AddsBehind<M>(s: Tabs<M>, t: Tabs<M>, r: Tabs<M>, c: Id, msg: M)
    requires SameLogs(s, t) && AddsTo(t, r, c, msg)
    ensures AddsTo(s, r, c, msg)
  {
  }

  /** What each posted task makes of the tabs. */
  lemma TaskDoes<M>(t: Tabs<M>, task: UiTask<M>)
    requires Open(t) && IsProper(task)
    ensures var r := RunTask(t, task);
            match task
            case OpenTab(c) => r.channels.Keys == t.channels.Keys + {c} && r.active == c && SameLogs(t, r)
            case CloseTab(c) =>
              && r.channels.Keys == t.channels.Keys - {c}
              && r.active == (if t.active == c then SERVER else t.active)
              && forall x: Id | x != c :: r.Of(x) == t.Of(x)
            case Say(c, msg, activate) =>
              var n := if c == "" then SERVER else c;
              && r.channels.Keys == t.channels.Keys + {n} && AddsTo(t, r, n, msg)
              && r.active == if activate || t.active == "" then n else t.active
            case PushTo(c, msg) =>
              r.channels.Keys == t.channels.Keys + {c} && r.active == t.active && AddsTo(t, r, c, msg)
            case PushHere(msg) =>
              var n := if t.active == "" then SERVER else t.active;
              r.channels.Keys == t.channels.Keys + {n} && r.active == t.active && AddsTo(t, r, n, msg)
  {
    match task
    case OpenTab(c) => OpenedDoes(t, c);
    case CloseTab(c) => ServerIsServerName();
    case Say(c, msg, activate) =>
      var n := Named(c);
      var mid := if activate then Opened(t, n) else Apply(t, Ensure(n));
      EnsureDoes(t, n);
      OpenedDoes(t, n);
      PushDoes(mid, n, msg);
      hide Apply, SameLogs, AddsTo, Opened;
      AddsBehind(t, mid, Apply(mid, Push(n, msg)), n, msg);
      assert t.channels.Keys + {n} + {n} == t.channels.Keys + {n};
    case PushTo(c, msg) => PushDoes(t, c, msg);
    case PushHere(msg) => PushDoes(t, Named(t.active), msg);
  }

  /** A message goes to the active tab; the server tab, and no tab, refuse it in a notice. */
  lemma SentDoes<M>(s: Screen<M>, msg: M, refusal: M)
    requires Open(s.tabs)
    ensures var r := Sent(s, msg, refusal);
            if s.tabs.active == "" || IsServerName(s.tabs.active) then
              r == s.(posted := s.posted + [Say(s.tabs.active, refusal, false)])
            else
              && r.posted == s.posted && r.tabs.channels.Keys == s.tabs.channels.Keys
              && r.tabs.active == s.tabs.active && AddsTo(s.tabs, r.tabs, s.tabs.active, msg)
  {
    hide IsServerName;
    PushDoes(s.tabs, s.tabs.active, msg);
    assert s.tabs.channels.Keys + {s.tabs.active} == s.tabs.channels.Keys;
  }

  /** What arriving chat, `/msg`, `/me` and clicking make of tabs and tasks. */
  lemma EventDoes<M>(s: Screen<M>, e: Event<M>)
    requires Open(s.tabs) && CanHappen(e) && (e.Chat? || e.MessageTo? || e.SendAction? || e.Click?)
    ensures var t, r := s.tabs, Handle(s, e).tabs;
            match e
            case Chat(c, msg) =>
              && r.channels.Keys == t.channels.Keys + {c} && r.active == (if t.active == "" then c else t.active)
              && SameLogs(t, r) && Handle(s, e).posted == s.posted + [PushTo(c, msg)]
            case MessageTo(c, msg, refusal) =>
              && r.channels.Keys == t.channels.Keys + {c} && r.active == c
              && (if IsServerName(c) then SameLogs(t, r) else AddsTo(t, r, c, msg))
              && Handle(s, e).posted == if IsServerName(c) then s.posted + [Say(c, refusal, false)] else s.posted
            case SendAction(msg) =>
              var n := if t.active == "" then "#general" else t.active;
              && r.channels.Keys == t.channels.Keys + {n} && r.active == t.active && AddsTo(t, r, n, msg)
              && Handle(s, e).posted == s.posted
            case Click(i) =>
              var list := TabList(t.channels.Keys);
              && r.channels.Keys == t.channels.Keys && SameLogs(t, r) && Handle(s, e).posted == s.posted
              && (0 <= i < |list| ==> r.active == list[i] && r.Of(list[i]).unread == 0)
              && (!(0 <= i < |list|) ==> r == t)
            case _ => true
  {
    var t := s.tabs;
    match e
    case Chat(c, msg) => EnsureDoes(t, c);
    case MessageTo(c, msg, refusal) =>
      var mid := s.(tabs := Opened(t, c));
      OpenedDoes(t, c);
      OpenedIsOpen(t, c);
      SentDoes(mid, msg, refusal);
      hide Apply, Opened, Sent, IsServerName, SameLogs, AddsTo, Open;
      if !IsServerName(c) { AddsBehind(t, mid.tabs, Sent(mid, msg, refusal).tabs, c, msg); }
    case SendAction(msg) => PushDoes(t, if t.active == "" then "#general" else t.active, msg);
    case Click(i) =>
      var list := TabList(t.channels.Keys);
      if 0 <= i < |list| {
        assert list[i] in list;
        ClickedDoes(t, list[i]);
      }
    case _ =>
  }

  /** Switching by number or by cycling opens and activates the tab, and says so there, in a notice. */
  lemma SwitchDoes<M>(s: Screen<M>, e: Event<M>)
    requires Open(s.tabs) && (e.SelectIndex? || e.CycleTabs?)
    ensures var t, r, list := s.tabs, Handle(s, e), TabList(s.tabs.channels.Keys);
            if e.SelectIndex? && !(0 <= e.index < |list|) then r == s
            else
              && r.posted == s.posted + [Say(r.tabs.active, e.notice, false)] && SameLogs(t, r.tabs)
              && r.tabs.channels.Keys == t.channels.Keys
              && (e.SelectIndex? ==> r.tabs.active == Canonical(list[e.index]))
              && (e.CycleTabs? ==>
                    r.tabs.active == Canonical(Neighbour(list, if t.active == "" then SERVER else t.active, e.forward)))
  {
    var t, list := s.tabs, TabList(s.tabs.channels.Keys);
    ServerComesFirst(t.channels.Keys);
    if e.CycleTabs? || 0 <= e.index < |list| {
      var c := if e.CycleTabs? then Neighbour(list, CycleFrom(list, t.active), e.forward) else list[e.index];
      assert c in list && c in t.channels && Canonical(c) in t.channels;
      assert t.channels.Keys + {Canonical(c)} == t.channels.Keys;
      hide IsTabList, Neighbour, Canonical, Apply;
      OpenedDoes(t, Canonical(c));
    }
  }

  lemma ClickedDoes<M>(t: Tabs<M>, c: Id)
    requires c in t.channels
    ensures var r := Clicked(t, c);
            r.channels.Keys == t.channels.Keys && r.active == c && SameLogs(t, r) && r.Of(c).unread == 0
  {
  }

  // ---------------------------------------------------------------------------------------------
  // The active tab is open
  // ---------------------------------------------------------------------------------------------

  ghost predicate Open<M>(t: Tabs<M>) { SERVER in t.channels && t.active in t.channels }

  ghost predicate AllProper<M>(posted: seq<UiTask<M>>) { forall k | 0 <= k < |posted| :: IsProper(posted[k]) }

  lemma ChangeKeepsOpen<M>(t: Tabs<M>, x: Change<M>)
    requires Open(t)
    requires x.Remove? ==> x.c != SERVER
    requires x.Activate? ==> x.c in t.channels
    ensures Open(Apply(t, x))
    ensures t.channels.Keys - (if x.Remove? then {x.c} else {}) <= Apply(t, x).channels.Keys
    ensures x.Ensure? ==> x.c in Apply(t, x).channels
  {
  }

  lemma OpenedIsOpen<M>(t: Tabs<M>, c: Id)
    requires Open(t)
    ensures Open(Opened(t, c))
  {
    hide Apply;
    ChangeKeepsOpen(t, Ensure(c));
    ChangeKeepsOpen(Apply(t, Ensure(c)), Activate(c));
  }

  lemma TaskKeepsOpen<M>(t: Tabs<M>, task: UiTask<M>)
    requires Open(t) && IsProper(task)
    ensures Open(RunTask(t, task))
  {
    hide Apply, Open, IsServerName, IsChannelName;
    match task
    case OpenTab(c) => OpenedIsOpen(t, c);
    case CloseTab(c) => ServerIsServerName(); ChangeKeepsOpen(t, Remove(c, SERVER));
    case Say(c, msg, activate) =>
      ChangeKeepsOpen(t, Ensure(Named(c)));
      OpenedIsOpen(t, Named(c));
      ChangeKeepsOpen(if activate then Opened(t, Named(c)) else Apply(t, Ensure(Named(c))), Push(Named(c), msg));
    case PushTo(c, msg) => ChangeKeepsOpen(t, Push(c, msg));
    case PushHere(msg) => ChangeKeepsOpen(t, Push(Named(t.active), msg));
  }

  lemma SentKeepsOpen<M>(s: Screen<M>, msg: M, refusal: M)
    requires Open(s.tabs) && AllProper(s.posted)
    ensures Open(Sent(s, msg, refusal).tabs) && AllProper(Sent(s, msg, refusal).posted)
  {
    hide Apply, IsServerName;
    ChangeKeepsOpen(s.tabs, Push(s.tabs.active, msg));
  }

  lemma ClickedIsOpen<M>(t: Tabs<M>, c: Id)
    requires Open(t) && c in t.channels
    ensures Open(Clicked(t, c))
  {
    hide Apply;
    ChangeKeepsOpen(t, Activate(c));
    ChangeKeepsOpen(Apply(t, Activate(c)), MarkRead(c));
  }

  lemma HandleKeepsOpen<M>(s: Screen<M>, e: Event<M>)
    requires Open(s.tabs) && AllProper(s.posted) && CanHappen(e)
    ensures Open(Handle(s, e).tabs) && AllProper(Handle(s, e).posted)
  {
    var t, list := s.tabs, TabList(s.tabs.channels.Keys);
    hide Apply, Open, Canonical, IsServerName, IsChannelName, RunTask, Sent, Neighbour, Opened, Clicked;
    match e
    case Post(task) =>
    case RunNext => if s.posted != [] { TaskKeepsOpen(t, s.posted[0]); }
    case Chat(c, msg) => ChangeKeepsOpen(t, Ensure(c));
    case MessageTo(c, msg, refusal) => OpenedIsOpen(t, c); SentKeepsOpen(s.(tabs := Opened(t, c)), msg, refusal);
    case SendChat(msg, refusal) => SentKeepsOpen(s, msg, refusal);
    case SendAction(msg) => ChangeKeepsOpen(t, Push(if t.active == "" then "#general" else t.active, msg));
    case SelectIndex(i, n) => if 0 <= i < |list| { SwitchIsOpen(t, list[i]); }
    case Click(i) => if 0 <= i < |list| { assert list[i] in list; ClickedIsOpen(t, list[i]); }
    case CycleTabs(forward, n) =>
      if list != [] { SwitchIsOpen(t, Neighbour(list, CycleFrom(list, t.active), forward)); }
    case Scrolled(x) => ChangeKeepsOpen(t, x);
  }

  lemma SwitchIsOpen<M>(t: Tabs<M>, c: Id)
    requires Open(t)
    ensures Open(SwitchTo(t, c))
  {
    hide Apply, Canonical;
    OpenedIsOpen(t, Canonical(c));
  }

  lemma {:induction false} RunKeepsOpen<M>(s: Screen<M>, es: seq<Event<M>>)
    requires Open(s.tabs) && AllProper(s.posted)
    requires forall k | 0 <= k < |es| :: CanHappen(es[k])
    ensures Open(After(s, es).tabs) && AllProper(After(s, es).posted)
  {
    hide Handle, Open, AllProper, CanHappen;
    if es != [] {
      RunKeepsOpen(s, es[..|es| - 1]);
      HandleKeepsOpen(After(s, es[..|es| - 1]), es[|es| - 1]);
    }
  }

  /** In every run the server tab exists, the active channel is one of the tabs, and the list begins with
      the server tab. */
  lemma ActiveTabAlwaysOpen<M>(es: seq<Event<M>>)
    requires forall k | 0 <= k < |es| :: CanHappen(es[k])
    ensures var t := After(Start(), es).tabs;
            Open(t) && TabList(t.channels.Keys) != [] && TabList(t.channels.Keys)[0] == SERVER
  {
    hide Handle, After, CanHappen;
    StartIsOpen<M>();
    RunKeepsOpen<M>(Start(), es);
    ServerComesFirst(After(Start<M>(), es).tabs.channels.Keys);
  }

  lemma StartIsOpen<M>()
    ensures var s: Screen<M> := Start(); Open(s.tabs) && s.tabs.channels.Keys == {SERVER} && AllProper(s.posted)
  {
  }

  // ---------------------------------------------------------------------------------------------
  // No active channel
  // ---------------------------------------------------------------------------------------------

  /** A message that brings a tab without a name */
  predicate IsUnnamed<M>(task: UiTask<M>) { task.PushTo? && task.c == "" }

  predicate NamesATab<M>(e: Event<M>) {
    match e
    case Post(task) => !IsUnnamed(task)
    case Chat(c, _) => c != ""
    case _ => true
  }

  ghost predicate AllNamed<M>(s: Screen<M>) {
    "" !in s.tabs.channels && forall k | 0 <= k < |s.posted| :: !IsUnnamed(s.posted[k])
  }

  lemma ChangeAddsOnly<M>(t: Tabs<M>, x: Change<M>)
    requires "" !in t.channels && (x.c != "" || !(x.Ensure? || x.Push?))
    ensures "" !in Apply(t, x).channels
  {
  }

  lemma OpenedAddsOnly<M>(t: Tabs<M>, c: Id)
    requires "" !in t.channels && c != ""
    ensures "" !in Opened(t, c).channels
  {
    hide Apply;
    ChangeAddsOnly(t, Ensure(c));
    ChangeAddsOnly(Apply(t, Ensure(c)), Activate(c));
  }

  lemma TaskAddsNoUnnamed<M>(t: Tabs<M>, task: UiTask<M>)
    requires "" !in t.channels && IsProper(task) && !IsUnnamed(task)
    ensures "" !in RunTask(t, task).channels
  {
    hide Apply, IsServerName;
    match task
    case OpenTab(c) => OpenedAddsOnly(t, c);
    case CloseTab(c) => ChangeAddsOnly(t, Remove(c, SERVER));
    case Say(c, msg, activate) =>
      ChangeAddsOnly(t, Ensure(Named(c)));
      OpenedAddsOnly(t, Named(c));
      ChangeAddsOnly(if activate then Opened(t, Named(c)) else Apply(t, Ensure(Named(c))), Push(Named(c), msg));
    case PushTo(c, msg) => ChangeAddsOnly(t, Push(c, msg));
    case PushHere(msg) => ChangeAddsOnly(t, Push(Named(t.active), msg));
  }

  lemma SentAddsNoUnnamed<M>(s: Screen<M>, msg: M, refusal: M)
    requires AllNamed(s)
    ensures AllNamed(Sent(s, msg, refusal))
  {
    hide Apply, IsServerName;
    if s.tabs.active != "" { ChangeAddsOnly(s.tabs, Push(s.tabs.active, msg)); }
  }

  lemma HandleAddsNoUnnamed<M>(s: Screen<M>, e: Event<M>)
    requires AllNamed(s) && AllProper(s.posted) && CanHappen(e) && NamesATab(e)
    ensures AllNamed(Handle(s, e))
  {
    var t, list := s.tabs, TabList(s.tabs.channels.Keys);
    hide Apply, IsServerName, IsChannelName, IsProper, RunTask, Sent, Opened;
    match e
    case Post(task) =>
    case RunNext => if s.posted != [] { TaskAddsNoUnnamed(t, s.posted[0]); }
    case Chat(c, msg) => ChangeAddsOnly(t, Ensure(c));
    case MessageTo(c, msg, refusal) =>
      OpenedAddsOnly(t, c);
      SentAddsNoUnnamed(s.(tabs := Opened(t, c)), msg, refusal);
    case SendChat(msg, refusal) => SentAddsNoUnnamed(s, msg, refusal);
    case SendAction(msg) => ChangeAddsOnly(t, Push(if t.active == "" then "#general" else t.active, msg));
    case SelectIndex(i, n) => if 0 <= i < |list| { SwitchAddsOnly(t, list[i]); }
    case Click(i) =>
      if 0 <= i < |list| {
        ChangeAddsOnly(t, Activate(list[i]));
        ChangeAddsOnly(Apply(t, Activate(list[i])), MarkRead(list[i]));
      }
    case CycleTabs(forward, n) =>
      if list != [] { SwitchAddsOnly(t, Neighbour(list, CycleFrom(list, t.active), forward)); }
    case Scrolled(x) => ChangeAddsOnly(t, x);
  }

  lemma SwitchAddsOnly<M>(t: Tabs<M>, c: Id)
    requires "" !in t.channels && c in TabList(t.channels.Keys)
    ensures "" !in SwitchTo(t, c).channels
  {
    hide Apply, IsServerName;
    assert c in t.channels;
    OpenedAddsOnly(t, Canonical(c));
  }

  ghost predicate NamesTabs<M>(es: seq<Event<M>>) {
    forall k | 0 <= k < |es| :: CanHappen(es[k]) && NamesATab(es[k])
  }

  lemma {:induction false} RunAddsNoUnnamed<M>(s: Screen<M>, es: seq<Event<M>>)
    requires Open(s.tabs) && AllProper(s.posted) && AllNamed(s) && NamesTabs(es)
    ensures AllNamed(After(s, es)) && After(s, es).tabs.active != ""
  {
    hide Handle, AllNamed, AllProper, CanHappen, NamesATab;
    if es != [] {
      RunAddsNoUnnamed(s, es[..|es| - 1]);
      RunKeepsOpen(s, es[..|es| - 1]);
      HandleAddsNoUnnamed(After(s, es[..|es| - 1]), es[|es| - 1]);
    }
    RunKeepsOpen(s, es);
    NamedIsNotEmpty(After(s, es));
  }

  lemma NamedIsNotEmpty<M>(s: Screen<M>)
    requires Open(s.tabs) && AllNamed(s)
    ensures s.tabs.active != ""
  {
  }

  /** As long as no event names a tab with the empty string, there is always an active channel. */
  lemma ActiveNeverEmpty<M>(es: seq<Event<M>>)
    requires NamesTabs(es)
    ensures "" !in After(Start<M>(), es).tabs.channels && After(Start<M>(), es).tabs.active != ""
  {
    hide After;
    StartIsOpen<M>();
    RunAddsNoUnnamed<M>(Start(), es);
  }

  function Drains<M>(n: nat): (es: seq<Event<M>>)
    ensures |es| == n && forall k | 0 <= k < n :: es[k] == RunNext
  {
    seq(n, _ => RunNext)
  }

  lemma {:induction false} DrainsRunInOrder<M>(s: Screen<M>, n: nat)
    requires n <= |s.posted|
    ensures After(s, Drains(n)).posted == s.posted[n..]
  {
    hide RunTask;
    if n > 0 {
      DrainsRunInOrder(s, n - 1);
      assert Drains<M>(n)[..n - 1] == Drains(n - 1);
    }
  }

  /** A tab without a name can be clicked. */
  lemma ClickUnnamed<M>(s: Screen<M>) returns (e: Event<M>)
    requires "" in s.tabs.channels
    ensures CanHappen(e) && NamesATab(e) && Handle(s, e).tabs.active == ""
  {
    var list := TabList(s.tabs.channels.Keys);
    var i :| 0 <= i < |list| && list[i] == "";
    e := Click(i);
  }

  /** In every reachable state: events that name no tab with the empty string can bring about that no
      channel is active, if and only if there is a tab without a name or a message for one is waiting. */
  lemma NoActiveIff<M>(es: seq<Event<M>>)
    requires forall k | 0 <= k < |es| :: CanHappen(es[k])
    ensures var s := After(Start<M>(), es);
            (exists more :: NamesTabs(more) && After(s, more).tabs.active == "")
            <==> "" in s.tabs.channels || exists k | 0 <= k < |s.posted| :: IsUnnamed(s.posted[k])
  {
    var s := After(Start<M>(), es);
    StartIsOpen<M>();
    RunKeepsOpen<M>(Start(), es);
    hide Handle, After, Open, AllProper, CanHappen, NamesATab;
    if AllNamed(s) {
      forall more | NamesTabs(more)
        ensures After(s, more).tabs.active != ""
      {
        RunAddsNoUnnamed(s, more);
      }
    } else {
      UnnamedCanBeClicked(s);
    }
  }

  lemma UnnamedArrives<M>(s: Screen<M>, k: nat)
    requires k < |s.posted| && IsUnnamed(s.posted[k])
    ensures "" in After(s, Drains(k + 1)).tabs.channels
  {
    DrainsRunInOrder(s, k);
    assert Drains<M>(k + 1)[..k] == Drains(k);
    var before := After(s, Drains(k));
    assert before.posted[0] == s.posted[k];
    assert After(s, Drains(k + 1)) == Handle(before, RunNext);
  }

  lemma UnnamedCanBeClicked<M>(s: Screen<M>)
    requires !AllNamed(s)
    ensures exists more :: NamesTabs(more) && After(s, more).tabs.active == ""
  {
    hide TabList, Handle;
    var drains: seq<Event<M>> := [];
    if "" !in s.tabs.channels {
      var k :| 0 <= k < |s.posted| && IsUnnamed(s.posted[k]);
      drains := Drains(k + 1);
      UnnamedArrives(s, k);
    }
    var e := ClickUnnamed(After(s, drains));
    var more := drains + [e];
    assert more[..|more| - 1] == drains;
    assert After(s, more) == Handle(After(s, drains), e);
    assert NamesTabs(more);
  }

  /** The first message for a channel opens its tab. */
  lemma ChatOpensTab<M>(c: Id, msg: M)
    requires c != SERVER
    ensures var s := After(Start(), [Chat(c, msg), RunNext]);
            s.tabs.channels.Keys == {SERVER, c} && s.tabs.active == SERVER && s.posted == []
  {
    var s0: Screen<M> := Start();
    var s1, s2 := Handle(s0, Chat(c, msg)), Handle(Handle(s0, Chat(c, msg)), RunNext);
    assert s1 == Screen(Apply(s0.tabs, Ensure(c)), [PushTo(c, msg)]);
    assert s2 == Screen(Apply(s1.tabs, Push(c, msg)), []);
    assert s0.tabs.channels.Keys == {SERVER};
    assert s1.tabs.channels.Keys == {SERVER, c} && s2.tabs.channels.Keys == {SERVER, c};
    hide Handle;
    var es := [Chat(c, msg), RunNext];
    assert es[..1][..0] == [] && es[..|es| - 1] == es[..1];
    assert After(s0, es[..1]) == s1;
    assert After(s0, es) == s2;
  }

  /** A chat message that names neither recipient nor sender makes a tab without a name, and a click on it
      leaves the application without an active channel; no task is waiting that would change that. */
  lemma UnnamedTabHidesActive<M>(msg: M)
    ensures var es := [Chat("", msg), RunNext, Click(1)];
            (forall k | 0 <= k < |es| :: CanHappen(es[k]))
            && After(Start(), es).tabs.active == "" && After(Start(), es).posted == []
  {
    var es := [Chat("", msg), RunNext, Click(1)];
    assert es[..|es| - 1] == [Chat("", msg), RunNext];
    ChatOpensTab("", msg);
    UnnamedComesSecond({SERVER, ""});
  }

  /** Switching to it by its number does not last: the notice of the switch goes to the server tab, and
      makes that the active one. */
  lemma SwitchToUnnamedIsUndone<M>(s: Screen<M>, i: nat, notice: M)
    requires SERVER in s.tabs.channels && s.posted == []
    requires i < |TabList(s.tabs.channels.Keys)| && TabList(s.tabs.channels.Keys)[i] == ""
    ensures Handle(s, SelectIndex(i, notice)).tabs.active == ""
    ensures Handle(Handle(s, SelectIndex(i, notice)), RunNext).tabs.active == SERVER
  {
  }

  // ---------------------------------------------------------------------------------------------
  // Which tabs cycling reaches
  // ---------------------------------------------------------------------------------------------

  /** Steps forward, with any drains in between */
  predicate IsCycling<M>(e: Event<M>) { e.RunNext? || (e.CycleTabs? && e.forward) }

  ghost predicate CyclesTo<M(!new)>(s: Screen<M>, c: Id) {
    exists es :: (forall k | 0 <= k < |es| :: IsCycling(es[k])) && After(s, es).tabs.active == c
  }

  /** The tab with number `n` stops the cycle: it is named like the server tab in other letters, or it is
      behind the tab without a name. */
  ghost predicate IsBarrier(list: seq<Id>, n: nat) {
    1 <= n < |list| && list[0] == SERVER && (Canonical(list[n]) != list[n] || (n == 2 && list[1] == ""))
  }

  ghost predicate InFrontOf<M>(s: Screen<M>, keys: set<Id>, n: nat) {
    var list := TabList(keys);
    && n <= |list| && s.tabs.channels.Keys == keys && s.tabs.active in list[..n]
    && forall k | 0 <= k < |s.posted| ::
         s.posted[k].Say? && !s.posted[k].activate && Named(s.posted[k].c) in list[..n]
  }

  lemma StepStaysInFront(list: seq<Id>, i: nat, n: nat)
    requires IsBarrier(list, n) && i < n && (forall j, k | 0 <= j < k < |list| :: list[j] != list[k])
    requires list[i] != "" && (forall j | 0 <= j < |list| && list[j] == "" :: j == 1)
    ensures Canonical(Neighbour(list, list[i], true)) in list[..n]
  {
    IndexIsUnique(list, i);
    assert list[..n][0] == SERVER;
    if i + 1 < n { assert list[..n][i + 1] == list[i + 1]; }
  }

  lemma CycleStaysInFront<M>(t: Tabs<M>, n: nat)
    requires IsBarrier(TabList(t.channels.Keys), n) && t.active in TabList(t.channels.Keys)[..n]
    ensures Cycle(t, true).active in TabList(t.channels.Keys)[..n]
    ensures Cycle(t, true).channels.Keys == t.channels.Keys
  {
    var keys := t.channels.Keys;
    var list := TabList(keys);
    var i :| 0 <= i < n && list[i] == t.active;
    assert list[0] in list;
    if "" in keys { UnnamedComesSecond(keys); }
    if t.active == "" {
      CycleFromUnnamed(t, true);
      StepStaysInFront(list, 0, n);
    } else {
      CycleLeadsTo(t, true);
      StepStaysInFront(list, i, n);
    }
  }

  lemma HandleStaysInFront<M>(s: Screen<M>, e: Event<M>, keys: set<Id>, n: nat)
    requires IsBarrier(TabList(keys), n) && InFrontOf(s, keys, n) && IsCycling(e)
    ensures InFrontOf(Handle(s, e), keys, n)
  {
    hide Cycle, IsTabList;
    if e.CycleTabs? {
      CycleStaysInFront(s.tabs, n);
      assert TabList(keys)[..n][0] == SERVER;
    } else if s.posted != [] {
      assert Named(s.posted[0].c) in TabList(keys)[..n];
      SayKeepsTabs(s.tabs, s.posted[0]);
    }
  }

  lemma SayKeepsTabs<M>(t: Tabs<M>, task: UiTask<M>)
    requires task.Say? && !task.activate && Named(task.c) in TabList(t.channels.Keys)
    ensures RunTask(t, task).channels.Keys == t.channels.Keys
    ensures RunTask(t, task).active == if t.active == "" then Named(task.c) else t.active
  {
    assert Named(task.c) in t.channels;
  }

  lemma {:induction false} RunStaysInFront<M>(s: Screen<M>, es: seq<Event<M>>, keys: set<Id>, n: nat)
    requires IsBarrier(TabList(keys), n) && InFrontOf(s, keys, n)
    requires forall k | 0 <= k < |es| :: IsCycling(es[k])
    ensures InFrontOf(After(s, es), keys, n)
  {
    hide Handle, InFrontOf, IsBarrier, IsCycling;
    if es != [] {
      RunStaysInFront(s, es[..|es| - 1], keys, n);
      HandleStaysInFront(After(s, es[..|es| - 1]), es[|es| - 1], keys, n);
    }
  }

  lemma BarrierIsNotReached<M(!new)>(s: Screen<M>, n: nat)
    requires s.tabs.active == SERVER && s.posted == [] && IsBarrier(TabList(s.tabs.channels.Keys), n)
    ensures !CyclesTo(s, TabList(s.tabs.channels.Keys)[n])
  {
    var keys := s.tabs.channels.Keys;
    var list := TabList(keys);
    assert list[..n][0] == SERVER;
    forall es: seq<Event<M>> | forall k | 0 <= k < |es| :: IsCycling(es[k])
      ensures After(s, es).tabs.active != list[n]
    {
      RunStaysInFront(s, es, keys, n);
    }
  }

  function Cycles<M>(k: nat, notice: M): (es: seq<Event<M>>)
    ensures |es| == k && forall j | 0 <= j < k :: es[j] == CycleTabs(true, notice)
  {
    seq(k, _ => CycleTabs(true, notice))
  }

  lemma {:induction false} CyclesAreSteps<M>(s: Screen<M>, k: nat, notice: M)
    ensures After(s, Cycles(k, notice)).tabs == CycleTimes(s.tabs, k)
  {
    if k > 0 {
      CyclesAreSteps(s, k - 1, notice);
      assert Cycles(k, notice)[..k - 1] == Cycles(k - 1, notice);
    }
  }

  /** With nothing waiting, cycling forward from the server tab reaches every tab exactly when no tab is
      named like the server tab in other letters, and a tab without a name, if any, is the only other one. */
  lemma CyclingReachesAllIff<M(!new)>(s: Screen<M>, notice: M)
    requires SERVER in s.tabs.channels && s.tabs.active == SERVER && s.posted == []
    ensures (forall c | c in s.tabs.channels :: CyclesTo(s, c))
            <==> NoAliases(s.tabs.channels.Keys) && ("" in s.tabs.channels ==> s.tabs.channels.Keys == {SERVER, ""})
  {
    var keys := s.tabs.channels.Keys;
    hide After, Cycle;
    if NoAliases(keys) && ("" in keys ==> keys == {SERVER, ""}) {
      forall c | c in keys
        ensures CyclesTo(s, c)
      {
        TabIsReached(s, c, notice);
      }
    } else {
      var n := FindBarrier(keys);
      BarrierIsNotReached(s, n);
      assert TabList(keys)[n] in TabList(keys);
    }
  }

  lemma TabIsReached<M(!new)>(s: Screen<M>, c: Id, notice: M)
    requires SERVER in s.tabs.channels && s.tabs.active == SERVER && c in s.tabs.channels
    requires NoAliases(s.tabs.channels.Keys)
    requires "" in s.tabs.channels ==> s.tabs.channels.Keys == {SERVER, ""}
    ensures CyclesTo(s, c)
  {
    var keys := s.tabs.channels.Keys;
    var list := TabList(keys);
    var k :| 0 <= k < |list| && list[k] == c;
    ServerComesFirst(keys);
    hide Cycle, IsTabList, Before, NoAliases, CyclesTo;
    if "" !in keys {
      CycleVisitsAll(s.tabs, 0, k);
    } else if k > 0 {
      TwoTabs(s.tabs, k);
    }
    CyclesReach(s, k, notice);
  }

  lemma CyclesReach<M(!new)>(s: Screen<M>, k: nat, notice: M)
    ensures CyclesTo(s, CycleTimes(s.tabs, k).active)
  {
    CyclesAreSteps(s, k, notice);
    hide After, CycleTimes;
    var es := Cycles(k, notice);
    assert After(s, es).tabs.active == CycleTimes(s.tabs, k).active;
  }

  lemma TwoTabs<M>(t: Tabs<M>, k: nat)
    requires t.active == SERVER && t.channels.Keys == {SERVER, ""} && 0 < k < |TabList(t.channels.Keys)|
    ensures CycleTimes(t, k).active == TabList(t.channels.Keys)[k]
  {
    var list := TabList(t.channels.Keys);
    UnnamedComesSecond(t.channels.Keys);
    assert list[k] in list && list[k] != SERVER;
    CycleLeadsTo(t, true);
    hide Cycle;
    assert k == 1 && CycleTimes(t, 0) == t;
  }

  lemma FindBarrier(keys: set<Id>) returns (n: nat)
    requires SERVER in keys && !(NoAliases(keys) && ("" in keys ==> keys == {SERVER, ""}))
    ensures IsBarrier(TabList(keys), n)
  {
    var list := TabList(keys);
    ServerComesFirst(keys);
    ServerIsServerName();
    if !NoAliases(keys) {
      var c :| c in keys && Canonical(c) != c;
      n :| 0 <= n < |list| && list[n] == c;
    } else {
      UnnamedComesSecond(keys);
      var c :| c in keys && c != SERVER && c != "";
      var i :| 0 <= i < |list| && list[i] == c;
      n := 2;
    }
  }

  lemma AliasOfServer()
    ensures Canonical("Server") == SERVER
  {
    assert IsServerName("Server");
  }

  /** Such a tab comes with a message for the server tab in other letters; cycling does not reach it. */
  lemma AliasCutsOff<M(!new)>(msg: M)
    ensures var s := After(Start(), [Chat("Server", msg), RunNext]);
            "Server" in s.tabs.channels && s.tabs.active == SERVER && s.posted == [] && !CyclesTo(s, "Server")
  {
    var s := After(Start(), [Chat("Server", msg), RunNext]);
    ChatOpensTab("Server", msg);
    AliasOfServer();
    hide After, Canonical, CyclesTo, IsTabList, Before;
    var list := TabList(s.tabs.channels.Keys);
    ServerComesFirst(s.tabs.channels.Keys);
    assert "Server" in list;
    var n :| 0 <= n < |list| && list[n] == "Server";
    BarrierIsNotReached(s, n);
  }

  // ---------------------------------------------------------------------------------------------
  // The application as an object
  // ---------------------------------------------------------------------------------------------

  ghost predicate Bounded<M>(t: Tabs<M>) {
    forall k | k in t.channels :: |t.channels[k].messages| <= MAX_MESSAGES
  }

  class App<M> {
    const state: ChannelTabs<M>
    var posted: seq<UiTask<M>>

    function State(): Screen<M>
      reads this, state
    {
      Screen(state.State(), posted)
    }

    constructor ()
      ensures State() == Start() && fresh(state)
    {
      state := new ChannelTabs();
      posted := [];
      new;
      state.EnsureChannel(SERVER);
    }

    /** The text goes to the active channel, or to the server tab. */
    method PushSystemMsg(msg: M)
      modifies this`posted
      ensures State() == Notified(old(State()), msg)
    {
      posted := posted + [Say(state.activeChannel, msg, false)];
    }

    method SwitchToChannel(channelId: Id, notice: M)
      modifies this`posted, state
      ensures State() == Switched(old(State()), channelId, notice)
    {
      hide Apply;
      var canonicalId := Canonical(channelId);
      state.EnsureChannel(canonicalId);
      state.SetActiveChannel(canonicalId);
      PushSystemMsg(notice);
    }

    method SwitchToChannelByIndex(index: int, notice: M)
      modifies this`posted, state
      ensures State() == Handle(old(State()), SelectIndex(index, notice))
    {
      hide IsTabList, SwitchTo;
      var channels := ChannelList(state.channels);
      if index < 0 || index >= |channels| { return; }
      SwitchToChannel(channels[index], notice);
    }

    /** `switch_channel`. Its callers pass 1 and -1; further back than once around the remainder is
        negative. */
    method SwitchChannel(delta: int, notice: M)
      requires var list := TabList(state.channels.Keys);
               list == [] || StartIndex(list, CycleFrom(list, state.activeChannel)) + delta + |list| >= 0
      modifies this`posted, state
      ensures var s := old(State()); var list := TabList(s.tabs.channels.Keys);
              State() == if list == [] then s
                         else Switched(s, Ahead(list, CycleFrom(list, s.tabs.active), delta), notice)
      ensures delta == 1 ==> State() == Handle(old(State()), CycleTabs(true, notice))
      ensures delta == -1 ==> State() == Handle(old(State()), CycleTabs(false, notice))
    {
      hide IsTabList, SwitchTo, Neighbour;
      var channels := ChannelList(state.channels);
      if channels == [] { return; }
      var active := if state.activeChannel == "" then channels[0] else state.activeChannel;
      AheadByOne(channels, active);
      var idx := if active in channels then IndexOf(channels, active) else 0;
      OnceMoreAround(idx + delta, |channels|);
      idx := (idx + delta + |channels|) % |channels|;
      SwitchToChannel(channels[idx], notice);
    }

    /** `handle_chat`: a message without a recipient goes to the sender's tab. */
    method HandleChat(recipient: Id, sender: Id, msg: M)
      modifies this`posted, state
      ensures State() == Handle(old(State()), Chat(if recipient == "" then sender else recipient, msg))
    {
      var channelId := recipient;
      if channelId == "" { channelId := sender; }
      state.EnsureChannel(channelId);
      posted := posted + [PushTo(channelId, msg)];
    }

    /** `send_chat`, as far as the screen shows it: the message, or a refusal */
    method SendChat(msg: M, refusal: M, authenticated: bool)
      requires Bounded(state.State())
      modifies this`posted, state
      ensures State() == Handle(old(State()), if authenticated then Event.SendChat(msg, refusal)
                                              else Post(Say(SERVER, refusal, true)))
      ensures Bounded(state.State())
    {
      if !authenticated {
        posted := posted + [Say(SERVER, refusal, true)];
        return;
      }
      var active := Canonical(state.activeChannel);
      ServerIsServerName();
      var isServer := IsServerChannel(active);
      if active == "" || isServer { PushSystemMsg(refusal); return; }
      state.PushMessage(active, msg);
    }

    /** What a posted task does when it runs */
    method Perform(task: UiTask<M>)
      requires Open(state.State()) && IsProper(task) && Bounded(state.State())
      modifies state
      ensures state.State() == RunTask(old(state.State()), task)
      ensures Bounded(state.State())
    {
      hide IsServerName, IsChannelName;
      match task
      case OpenTab(c) =>
        state.EnsureChannel(c);
        state.SetActiveChannel(c);
      case CloseTab(c) =>
        ServerIsServerName();
        state.RemoveChannel(c);
      case Say(c, msg, activate) =>
        state.EnsureChannel(Named(c));
        if activate { state.SetActiveChannel(Named(c)); }
        state.PushMessage(Named(c), msg);
      case PushTo(c, msg) =>
        state.PushMessage(c, msg);
      case PushHere(msg) =>
        state.PushMessage(Named(state.activeChannel), msg);
    }

    /** One drain: the queue is taken as a whole, and its tasks run in order. */
    method DrainUiQueue()
      requires Open(state.State()) && AllProper(posted) && Bounded(state.State())
      modifies this`posted, state
      ensures State() == After(old(State()), Drains(|old(posted)|))
      ensures Bounded(state.State())
    {
      hide Open, IsProper, Bounded, RunTask;
      var batch := posted;
      posted := [];
      assert After(old(State()), Drains(0)) == old(State());
      for k := 0 to |batch|
        invariant posted == [] && Bounded(state.State()) && Open(state.State())
        invariant Screen(state.State(), batch[k..]) == After(old(State()), Drains(k))
      {
        TaskKeepsOpen(state.State(), batch[k]);
        assert Drains<M>(k + 1)[..k] == Drains(k);
        Perform(batch[k]);
      }
    }

    /** `handle_click`, on the tab bar */
    method HandleClick(tabIdx: int)
      modifies state
      ensures State() == Handle(old(State()), Click(tabIdx))
    {
      hide Apply, IsTabList;
      if tabIdx >= 0 {
        var channels := ChannelList(state.channels);
        if tabIdx < |channels| {
          state.SetActiveChannel(channels[tabIdx]);
          state.MarkRead(channels[tabIdx]);
        }
      }
    }
  }
}
