/** The user lists of `AppState`: who is online, who speaks, and, per channel, a copy of both. */
module Users {
  import opened Ids
  import opened Seqs

  datatype Presence = Offline | Online | Away
  datatype Role = Regular | Voiced | Admin
  datatype VoiceStatus = Off | Muted | Talking

  datatype UserInfo = UserInfo(userId: Id, role: Role, presence: Presence, voice: VoiceStatus)

  type Members = map<Id, UserInfo>

  ghost predicate ShowPresence(m: Members, online: map<Id, Presence>) {
    forall u | u in m :: m[u].userId == u && (u in online ==> m[u].presence == online[u])
  }

  ghost predicate ShowVoice(m: Members, voice: map<Id, VoiceStatus>) {
    forall u | u in m :: u in voice ==> m[u].voice == voice[u]
  }

  // ---------------------------------------------------------------------------------------------
  // The lists as a value
  // ---------------------------------------------------------------------------------------------

  datatype Directory = Directory(online: map<Id, Presence>, voice: map<Id, VoiceStatus>, members: map<Id, Members>) {
    /** An entry is stored under its own user id, and shows the global presence of a known user. */
    ghost predicate PresenceCoherent() {
      forall c | c in members :: ShowPresence(members[c], online)
    }

    /** An entry shows the global voice status of a known user. */
    ghost predicate VoiceCoherent() {
      forall c | c in members :: ShowVoice(members[c], voice)
    }

    /** An entry as it is stored: with what is known about the user. */
    function Synced(info: UserInfo): UserInfo {
      info.(presence := if info.userId in online then online[info.userId] else info.presence,
            voice := if info.userId in voice then voice[info.userId] else info.voice)
    }

    function Of(c: Id): Members { if c in members then members[c] else map[] }

    function SetPresence(u: Id, s: Presence): Directory {
      this.(online := online[u := s], members := map c | c in members :: WithPresence(members[c], u, s))
    }

    function SetVoice(u: Id, s: VoiceStatus): Directory {
      this.(voice := voice[u := s], members := map c | c in members :: WithVoice(members[c], u, s))
    }

    /** The first `n` of `users`, later entries replacing earlier ones of the same user. */
    function Listed(users: seq<UserInfo>, n: nat): Members
      requires n <= |users|
    {
      if n == 0 then map[] else Listed(users, n - 1)[users[n - 1].userId := Synced(users[n - 1])]
    }

    function SetChannelUsers(c: Id, users: seq<UserInfo>): Directory {
      this.(members := members[c := Listed(users, |users|)])
    }

    function AddUser(c: Id, info: UserInfo): Directory {
      this.(members := members[c := Of(c)[info.userId := Synced(info)]])
    }

    function RemoveUser(c: Id, u: Id): Directory {
      if c in members then this.(members := members[c := members[c] - {u}]) else this
    }

    function SetRole(c: Id, u: Id, role: Role): Directory {
      if c in members && u in members[c]
      then this.(members := members[c := members[c][u := members[c][u].(role := role)]])
      else this
    }

    /** The users that are not offline, as regular users with no voice status. */
    function Fresh(): Members {
      map u | u in online && online[u] != Offline :: UserInfo(u, Regular, online[u], Off)
    }

    function EnsureFromOnline(c: Id): Directory {
      if c in members then this else this.(members := members[c := Fresh()])
    }
  }

  function WithPresence(m: Members, u: Id, s: Presence): Members {
    if u in m then m[u := m[u].(presence := s)] else m
  }

  function WithVoice(m: Members, u: Id, s: VoiceStatus): Members {
    if u in m then m[u := m[u].(voice := s)] else m
  }

  // ---------------------------------------------------------------------------------------------
  // The lists as an object
  // ---------------------------------------------------------------------------------------------

  class UserDirectory {
    var onlineUsers: map<Id, Presence>
    var userVoiceStatus: map<Id, VoiceStatus>
    var channelUsers: map<Id, Members>

    function State(): Directory
      reads this
    {
      Directory(onlineUsers, userVoiceStatus, channelUsers)
    }

    constructor ()
      ensures State() == Directory(map[], map[], map[])
    {
      onlineUsers, userVoiceStatus, channelUsers := map[], map[], map[];
    }

    method SetPresence(u: Id, status: Presence)
      modifies this
      ensures State() == old(State()).SetPresence(u, status)
    {
      onlineUsers := onlineUsers[u := status];
      var todo := channelUsers.Keys;
      while todo != {}
        invariant onlineUsers == old(onlineUsers)[u := status] && userVoiceStatus == old(userVoiceStatus)
        invariant todo <= channelUsers.Keys == old(channelUsers).Keys
        invariant forall c | c in channelUsers ::
                    channelUsers[c] == if c in todo then old(channelUsers)[c]
                                       else WithPresence(old(channelUsers)[c], u, status)
        decreases todo
      {
        var c :| c in todo;
        todo := todo - {c};
        var users := channelUsers[c];
        if u in users {
          channelUsers := channelUsers[c := users[u := users[u].(presence := status)]];
        }
      }
    }

    method SetUserVoiceStatus(u: Id, status: VoiceStatus)
      modifies this
      ensures State() == old(State()).SetVoice(u, status)
    {
      userVoiceStatus := userVoiceStatus[u := status];
      var todo := channelUsers.Keys;
      while todo != {}
        invariant onlineUsers == old(onlineUsers) && userVoiceStatus == old(userVoiceStatus)[u := status]
        invariant todo <= channelUsers.Keys == old(channelUsers).Keys
        invariant forall c | c in channelUsers ::
                    channelUsers[c] == if c in todo then old(channelUsers)[c]
                                       else WithVoice(old(channelUsers)[c], u, status)
        decreases todo
      {
        var c :| c in todo;
        todo := todo - {c};
        var users := channelUsers[c];
        if u in users {
          channelUsers := channelUsers[c := users[u := users[u].(voice := status)]];
        }
      }
    }

    method SetChannelUsers(c: Id, users: seq<UserInfo>)
      modifies this`channelUsers
      ensures State() == old(State()).SetChannelUsers(c, users)
    {
      var chUsers: Members := map[];
      for k := 0 to |users|
        invariant chUsers == old(State()).Listed(users, k)
        invariant channelUsers == old(channelUsers)
      {
        var info := users[k];
        if info.userId in onlineUsers { info := info.(presence := onlineUsers[info.userId]); }
        if info.userId in userVoiceStatus { info := info.(voice := userVoiceStatus[info.userId]); }
        chUsers := chUsers[info.userId := info];
      }
      channelUsers := channelUsers[c := chUsers];
    }

    method AddChannelUser(c: Id, user: UserInfo)
      modifies this`channelUsers
      ensures State() == old(State()).AddUser(c, user)
    {
      var info := user;
      if user.userId in onlineUsers { info := info.(presence := onlineUsers[user.userId]); }
      if user.userId in userVoiceStatus { info := info.(voice := userVoiceStatus[user.userId]); }
      var chUsers := if c in channelUsers then channelUsers[c] else map[];
      channelUsers := channelUsers[c := chUsers[user.userId := info]];
    }

    method RemoveChannelUser(c: Id, u: Id)
      modifies this`channelUsers
      ensures State() == old(State()).RemoveUser(c, u)
    {
      if c in channelUsers { channelUsers := channelUsers[c := channelUsers[c] - {u}]; }
    }

    method SetUserRole(c: Id, u: Id, role: Role)
      modifies this`channelUsers
      ensures State() == old(State()).SetRole(c, u, role)
    {
      if c in channelUsers {
        var users := channelUsers[c];
        if u in users { channelUsers := channelUsers[c := users[u := users[u].(role := role)]]; }
      }
    }

    method EnsureChannelUsersFromOnline(c: Id)
      modifies this`channelUsers
      ensures State() == old(State()).EnsureFromOnline(c)
    {
      if c in channelUsers { return; }
      var chUsers: Members := map[];
      var todo := onlineUsers.Keys;
      while todo != {}
        invariant todo <= onlineUsers.Keys && channelUsers == old(channelUsers)
        invariant chUsers == map u | u in onlineUsers && u !in todo && onlineUsers[u] != Offline
                               :: UserInfo(u, Regular, onlineUsers[u], Off)
        decreases todo
      {
        var u :| u in todo;
        todo := todo - {u};
        var status := onlineUsers[u];
        if status != Offline { chUsers := chUsers[u := UserInfo(u, Regular, status, Off)]; }
      }
      assert chUsers == State().Fresh();
      channelUsers := channelUsers[c := chUsers];
    }

    method PresenceOf(u: Id) returns (s: Presence)
      ensures s == if u in onlineUsers then onlineUsers[u] else Offline
    {
      s := if u in onlineUsers then onlineUsers[u] else Offline;
    }

    method ChannelUser(c: Id, u: Id) returns (info: Option<UserInfo>)
      ensures info == if u in State().Of(c) then Some(State().Of(c)[u]) else None
    {
      if c in channelUsers {
        if u in channelUsers[c] { return Some(channelUsers[c][u]); }
      }
      info := None;
    }
  }

  // ---------------------------------------------------------------------------------------------
  // Every run of the mutators
  // ---------------------------------------------------------------------------------------------

  datatype Change =
    | PresenceChange(u: Id, presence: Presence)
    | VoiceChange(u: Id, voice: VoiceStatus)
    | ListChannel(c: Id, users: seq<UserInfo>)
    | Add(c: Id, info: UserInfo)
    | Remove(c: Id, u: Id)
    | RoleChange(c: Id, u: Id, role: Role)
    | EnsureFromOnline(c: Id)

  function Apply(d: Directory, x: Change): Directory {
    match x
    case PresenceChange(u, s) => d.SetPresence(u, s)
    case VoiceChange(u, s) => d.SetVoice(u, s)
    case ListChannel(c, users) => d.SetChannelUsers(c, users)
    case Add(c, info) => d.AddUser(c, info)
    case Remove(c, u) => d.RemoveUser(c, u)
    case RoleChange(c, u, role) => d.SetRole(c, u, role)
    case EnsureFromOnline(c) => d.EnsureFromOnline(c)
  }

  function Run(d: Directory, xs: seq<Change>): Directory {
    if xs == [] then d else Apply(Run(d, xs[..|xs| - 1]), xs[|xs| - 1])
  }

  lemma {:induction false} ListedIsCoherent(d: Directory, users: seq<UserInfo>, n: nat)
    requires n <= |users|
    ensures ShowPresence(d.Listed(users, n), d.online)
    ensures ShowVoice(d.Listed(users, n), d.voice)
  {
    if n > 0 { ListedIsCoherent(d, users, n - 1); }
  }

  lemma ApplyKeepsPresence(d: Directory, x: Change)
    requires d.PresenceCoherent()
    ensures Apply(d, x).PresenceCoherent()
  {
    match x
    case PresenceChange(u, s) =>
      forall c | c in d.members
        ensures ShowPresence(WithPresence(d.members[c], u, s), d.online[u := s])
      {
        assert ShowPresence(d.members[c], d.online);
      }
    case VoiceChange(u, s) =>
      forall c | c in d.members
        ensures ShowPresence(WithVoice(d.members[c], u, s), d.online)
      {
        assert ShowPresence(d.members[c], d.online);
      }
    case ListChannel(c, users) => ListedIsCoherent(d, users, |users|);
    case Add(c, info) => assert ShowPresence(d.Of(c), d.online);
    case Remove(c, u) => assert ShowPresence(d.Of(c), d.online);
    case RoleChange(c, u, role) => assert ShowPresence(d.Of(c), d.online);
    case EnsureFromOnline(c) =>
  }

  /** In every run, each channel entry is stored under its own user id, and its presence is the global
      presence whenever the user is known. */
  lemma {:induction false} PresenceAlwaysCoherent(xs: seq<Change>)
    ensures Run(Directory(map[], map[], map[]), xs).PresenceCoherent()
  {
    if xs != [] {
      PresenceAlwaysCoherent(xs[..|xs| - 1]);
      ApplyKeepsPresence(Run(Directory(map[], map[], map[]), xs[..|xs| - 1]), xs[|xs| - 1]);
    }
  }

  /** Filling a list from the online users gets no known voice status wrong. */
  ghost predicate FillsVoiceCorrectly(d: Directory, c: Id) {
    c in d.members || forall u | u in d.online && d.online[u] != Offline :: u in d.voice ==> d.voice[u] == Off
  }

  /** Filling a channel from the online users does not copy the voice status: it keeps the lists coherent
      exactly when the channel has a list already or nobody online is known to be muted or talking. */
  lemma EnsureKeepsVoiceIff(d: Directory, c: Id)
    requires d.VoiceCoherent()
    ensures d.EnsureFromOnline(c).VoiceCoherent() <==> FillsVoiceCorrectly(d, c)
  {
    if c !in d.members {
      var e := d.EnsureFromOnline(c);
      assert e.members[c] == d.Fresh();
      assert forall c' | c' in d.members :: e.members[c'] == d.members[c'];
      if e.VoiceCoherent() {
        forall u | u in d.online && d.online[u] != Offline
          ensures u in d.voice ==> d.voice[u] == Off
        {
          assert ShowVoice(e.members[c], d.voice) && u in e.members[c];
        }
      }
    }
  }

  lemma ApplyKeepsVoice(d: Directory, x: Change)
    requires d.VoiceCoherent()
    requires x.EnsureFromOnline? ==> FillsVoiceCorrectly(d, x.c)
    ensures Apply(d, x).VoiceCoherent()
  {
    match x
    case PresenceChange(u, s) =>
      forall c | c in d.members
        ensures ShowVoice(WithPresence(d.members[c], u, s), d.voice)
      {
        assert ShowVoice(d.members[c], d.voice);
      }
    case VoiceChange(u, s) =>
      forall c | c in d.members
        ensures ShowVoice(WithVoice(d.members[c], u, s), d.voice[u := s])
      {
        assert ShowVoice(d.members[c], d.voice);
      }
    case ListChannel(c, users) => ListedIsCoherent(d, users, |users|);
    case Add(c, info) => assert ShowVoice(d.Of(c), d.voice);
    case Remove(c, u) => assert ShowVoice(d.Of(c), d.voice);
    case RoleChange(c, u, role) => assert ShowVoice(d.Of(c), d.voice);
    case EnsureFromOnline(c) => EnsureKeepsVoiceIff(d, c);
  }

  /** In every run whose fills from the online users are correct, each channel entry shows the global
      voice status of a known user. */
  lemma {:induction false} VoiceCoherentUnlessFilled(xs: seq<Change>)
    requires forall k | 0 <= k < |xs| ::
               xs[k].EnsureFromOnline? ==> FillsVoiceCorrectly(Run(Directory(map[], map[], map[]), xs[..k]), xs[k].c)
    ensures Run(Directory(map[], map[], map[]), xs).VoiceCoherent()
  {
    if xs != [] {
      var init := xs[..|xs| - 1];
      forall k | 0 <= k < |init|
        ensures init[k].EnsureFromOnline? ==>
                  FillsVoiceCorrectly(Run(Directory(map[], map[], map[]), init[..k]), init[k].c)
      {
        assert init[..k] == xs[..k];
      }
      VoiceCoherentUnlessFilled(init);
      ApplyKeepsVoice(Run(Directory(map[], map[], map[]), init), xs[|xs| - 1]);
    }
  }

  // ---------------------------------------------------------------------------------------------
  // The lists, told from the history
  // ---------------------------------------------------------------------------------------------

  function PresenceTold(xs: seq<Change>, u: Id): Option<Presence> {
    if xs == [] then None
    else
      var x := xs[|xs| - 1];
      if x.PresenceChange? && x.u == u then Some(x.presence) else PresenceTold(xs[..|xs| - 1], u)
  }

  function VoiceTold(xs: seq<Change>, u: Id): Option<VoiceStatus> {
    if xs == [] then None
    else
      var x := xs[|xs| - 1];
      if x.VoiceChange? && x.u == u then Some(x.voice) else VoiceTold(xs[..|xs| - 1], u)
  }

  /** The channel has a list: one was set or filled, or a user was added. */
  predicate HasList(xs: seq<Change>, c: Id) {
    exists k :: 0 <= k < |xs| && (xs[k].ListChannel? || xs[k].Add? || xs[k].EnsureFromOnline?) && xs[k].c == c
  }

  function Or<T>(x: Option<T>, y: T): T { if x.Some? then x.value else y }

  /** The last entry of a user. */
  function LastOf(users: seq<UserInfo>, u: Id): Option<UserInfo> {
    if users == [] then None
    else if users[|users| - 1].userId == u then Some(users[|users| - 1])
    else LastOf(users[..|users| - 1], u)
  }

  lemma {:induction false} LastIsLast(users: seq<UserInfo>, u: Id)
    ensures match LastOf(users, u)
            case None => forall k | 0 <= k < |users| :: users[k].userId != u
            case Some(x) => exists k :: 0 <= k < |users| && users[k] == x && x.userId == u
                                        && forall j | k < j < |users| :: users[j].userId != u
  {
    if users != [] {
      var n := |users| - 1;
      LastIsLast(users[..n], u);
      if users[n].userId != u && LastOf(users[..n], u).Some? {
        var k :| 0 <= k < n && users[..n][k] == LastOf(users[..n], u).value && users[..n][k].userId == u
                 && forall j | k < j < n :: users[..n][j].userId != u;
        assert users[k] == users[..n][k];
        assert forall j | k < j < |users| :: j == n || users[j] == users[..n][j];
      }
    }
  }

  function Known(x: UserInfo, presence: Option<Presence>, voice: Option<VoiceStatus>): UserInfo {
    UserInfo(x.userId, x.role, Or(presence, x.presence), Or(voice, x.voice))
  }

  /** What a channel shows of a user, by what has happened. */
  function Told(xs: seq<Change>, c: Id, u: Id): Option<UserInfo> {
    if xs == [] then None
    else
      var init := xs[..|xs| - 1];
      var before := Told(init, c, u);
      match xs[|xs| - 1]
      case PresenceChange(v, s) => if u == v && before.Some? then Some(before.value.(presence := s)) else before
      case VoiceChange(v, s) => if u == v && before.Some? then Some(before.value.(voice := s)) else before
      case ListChannel(d, users) =>
        if c != d then before
        else if LastOf(users, u).None? then None
        else Some(Known(LastOf(users, u).value, PresenceTold(init, u), VoiceTold(init, u)))
      case Add(d, info) =>
        if c == d && u == info.userId then Some(Known(info, PresenceTold(init, u), VoiceTold(init, u))) else before
      case Remove(d, v) => if c == d && u == v then None else before
      case RoleChange(d, v, role) =>
        if c == d && u == v && before.Some? then Some(before.value.(role := role)) else before
      case EnsureFromOnline(d) =>
        if c != d || HasList(init, c) then before
        else if PresenceTold(init, u).None? || PresenceTold(init, u) == Some(Offline) then None
        else Some(UserInfo(u, Regular, PresenceTold(init, u).value, Off))
  }

  function Lookup<K, V>(m: map<K, V>, k: K): Option<V> { if k in m then Some(m[k]) else None }

  ghost predicate IsTold(d: Directory, xs: seq<Change>, c: Id, u: Id) {
    && Lookup(d.online, u) == PresenceTold(xs, u) && Lookup(d.voice, u) == VoiceTold(xs, u)
    && (c in d.members <==> HasList(xs, c)) && Lookup(d.Of(c), u) == Told(xs, c, u)
  }

  lemma {:induction false} ListedIsLast(d: Directory, users: seq<UserInfo>, n: nat, u: Id)
    requires n <= |users|
    ensures Lookup(d.Listed(users, n), u)
            == var x := LastOf(users[..n], u);
               if x.None? then None else Some(Known(x.value, Lookup(d.online, u), Lookup(d.voice, u)))
  {
    if n > 0 {
      ListedIsLast(d, users, n - 1, u);
      assert users[..n][..n - 1] == users[..n - 1];
    }
  }

  /** A list replaces the one before it: it shows of each user the last entry, with what is known globally.
      Other channels and what is known do not change. */
  lemma ListReplacesExactly(d: Directory, c: Id, users: seq<UserInfo>, u: Id)
    ensures var r := d.SetChannelUsers(c, users);
            && r.online == d.online && r.voice == d.voice && c in r.members
            && (forall c' | c' != c :: (c' in r.members <==> c' in d.members) && r.Of(c') == d.Of(c'))
            && Lookup(r.Of(c), u)
               == var x := LastOf(users, u);
                  if x.None? then None else Some(Known(x.value, Lookup(d.online, u), Lookup(d.voice, u)))
  {
    ListedIsLast(d, users, |users|, u);
    assert users[..|users|] == users;
    hide Known, LastOf;
  }

  lemma HasListSnoc(xs: seq<Change>, x: Change, c: Id)
    ensures HasList(xs + [x], c) <==> HasList(xs, c) || ((x.ListChannel? || x.Add? || x.EnsureFromOnline?) && x.c == c)
  {
    var all := xs + [x];
    if HasList(xs, c) {
      var k :| 0 <= k < |xs| && (xs[k].ListChannel? || xs[k].Add? || xs[k].EnsureFromOnline?) && xs[k].c == c;
      assert all[k] == xs[k];
    }
    assert all[|xs|] == x;
  }

  lemma ListIsTold(d: Directory, xs: seq<Change>, d': Id, users: seq<UserInfo>, c: Id, u: Id)
    requires IsTold(d, xs, c, u)
    ensures IsTold(d.SetChannelUsers(d', users), xs + [ListChannel(d', users)], c, u)
  {
    var x := ListChannel(d', users);
    assert (xs + [x])[..|xs|] == xs;
    HasListSnoc(xs, x, c);
    ListReplacesExactly(d, d', users, u);
    hide HasList, LastOf, Known, Lookup;
    if c != d' { assert d.SetChannelUsers(d', users).Of(c) == d.Of(c); }
  }

  lemma FillIsTold(d: Directory, xs: seq<Change>, d': Id, c: Id, u: Id)
    requires IsTold(d, xs, c, u)
    ensures IsTold(d.EnsureFromOnline(d'), xs + [EnsureFromOnline(d')], c, u)
  {
    var x := EnsureFromOnline(d');
    assert (xs + [x])[..|xs|] == xs;
    HasListSnoc(xs, x, c);
    hide HasList;
  }

  lemma GlobalIsTold(d: Directory, xs: seq<Change>, x: Change, c: Id, u: Id)
    requires IsTold(d, xs, c, u) && (x.PresenceChange? || x.VoiceChange?)
    ensures IsTold(Apply(d, x), xs + [x], c, u)
  {
    assert (xs + [x])[..|xs|] == xs;
    HasListSnoc(xs, x, c);
    hide HasList;
  }

  lemma EntryIsTold(d: Directory, xs: seq<Change>, x: Change, c: Id, u: Id)
    requires IsTold(d, xs, c, u) && (x.Add? || x.Remove? || x.RoleChange?)
    ensures IsTold(Apply(d, x), xs + [x], c, u)
  {
    assert (xs + [x])[..|xs|] == xs;
    HasListSnoc(xs, x, c);
    hide HasList;
  }

  lemma ApplyIsTold(d: Directory, xs: seq<Change>, x: Change, c: Id, u: Id)
    requires IsTold(d, xs, c, u)
    ensures IsTold(Apply(d, x), xs + [x], c, u)
  {
    hide IsTold;
    match x
    case ListChannel(d', users) => ListIsTold(d, xs, d', users, c, u);
    case EnsureFromOnline(d') => FillIsTold(d, xs, d', c, u);
    case PresenceChange(_, _) => GlobalIsTold(d, xs, x, c, u);
    case VoiceChange(_, _) => GlobalIsTold(d, xs, x, c, u);
    case _ => EntryIsTold(d, xs, x, c, u);
  }

  /** In every run, what is known of a user, which channels have a list, and what each list shows of each
      user are what the history tells. */
  lemma {:induction false} DirectoryIsTold(xs: seq<Change>, c: Id, u: Id)
    ensures IsTold(Run(Directory(map[], map[], map[]), xs), xs, c, u)
  {
    if xs != [] {
      var init := xs[..|xs| - 1];
      DirectoryIsTold(init, c, u);
      hide IsTold;
      ApplyIsTold(Run(Directory(map[], map[], map[]), init), init, xs[|xs| - 1], c, u);
      assert init + [xs[|xs| - 1]] == xs;
    } else {
      NothingTold(c, u);
    }
  }

  lemma NothingTold(c: Id, u: Id)
    ensures IsTold(Directory(map[], map[], map[]), [], c, u)
  {
  }
}
