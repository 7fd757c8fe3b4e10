/** The tab bar: the order of the channel list, and switching and cycling in `App`. */
module TabOrder {
  import opened Ids
  import opened ChannelNames
  import opened Channels

  // ---------------------------------------------------------------------------------------------
  // The order of the list
  // ---------------------------------------------------------------------------------------------

  /** `std::string` comparison */
  predicate Less(a: string, b: string) {
    b != "" && (a == "" || a[0] < b[0] || (a[0] == b[0] && Less(a[1..], b[1..])))
  }

  /** The first difference decides; a proper prefix comes first. */
  lemma {:induction false} LessIff(a: string, b: string)
    ensures Less(a, b) <==>
              exists k :: 0 <= k <= |a| && k < |b| && a[..k] == b[..k] && (k == |a| || a[k] < b[k])
  {
    if a != "" && b != "" && a[0] == b[0] {
      LessIff(a[1..], b[1..]);
      assert a == [a[0]] + a[1..] && b == [b[0]] + b[1..];
      if k :| 0 <= k <= |a[1..]| && k < |b[1..]| && a[1..][..k] == b[1..][..k]
              && (k == |a[1..]| || a[1..][k] < b[1..][k]) {
        assert a[..k + 1] == [a[0]] + a[1..][..k] && b[..k + 1] == [b[0]] + b[1..][..k];
      }
      if k :| 0 <= k <= |a| && k < |b| && a[..k] == b[..k] && (k == |a| || a[k] < b[k]) {
        assert k > 0;
        assert a[..k][1..] == a[1..][..k - 1] && b[..k][1..] == b[1..][..k - 1];
      }
    } else if a == "" && b != "" {
      assert a[..0] == b[..0];
    } else if a != "" && b != "" {
      assert a[..0] == b[..0];
      if k :| 0 < k <= |a| && k < |b| && a[..k] == b[..k] { assert a[..k][0] == b[..k][0]; }
    }
  }

  lemma {:induction false} LessIsTotal(a: string, b: string)
    ensures Less(a, b) || Less(b, a) || a == b
    ensures !(Less(a, b) && Less(b, a)) && !Less(a, a)
  {
    if a != "" && b != "" {
      LessIsTotal(a[1..], b[1..]);
      assert a == [a[0]] + a[1..] && b == [b[0]] + b[1..];
    }
    if a != "" { LessIsTotal(a[1..], a[1..]); }
  }

  lemma {:induction false} LessIsTransitive(a: string, b: string, c: string)
    requires Less(a, b) && Less(b, c)
    ensures Less(a, c)
  {
    if a != "" && a[0] == b[0] == c[0] { LessIsTransitive(a[1..], b[1..], c[1..]); }
  }

  /** The comparator of `channel_list`. */
  predicate Before(a: Id, b: Id) {
    if a == SERVER then true else if b == SERVER then false else Less(a, b)
  }

  lemma BeforeIsOrder(a: Id, b: Id, c: Id)
    ensures a != b ==> (Before(a, b) <==> !Before(b, a))
    ensures a != b && b != c && Before(a, b) && Before(b, c) ==> a != c && Before(a, c)
  {
    LessIsTotal(a, b);
    if Less(a, b) && Less(b, c) { LessIsTransitive(a, b, c); LessIsTotal(a, c); }
  }

  /** A permutation of the keys in strictly ascending order. */
  ghost predicate IsTabList(list: seq<Id>, keys: set<Id>) {
    && (forall c :: c in list <==> c in keys)
    && (forall i, j | 0 <= i < j < |list| :: list[i] != list[j] && Before(list[i], list[j]))
  }

  /** Puts `x` in front of the first element that does not come before it. */
  function Inserted(x: Id, list: seq<Id>): seq<Id> {
    if list == [] then [x] else if Before(list[0], x) then [list[0]] + Inserted(x, list[1..]) else [x] + list
  }

  lemma TailIsTabList(list: seq<Id>, keys: set<Id>)
    requires IsTabList(list, keys) && list != []
    ensures IsTabList(list[1..], keys - {list[0]})
    ensures forall c | c in keys - {list[0]} :: Before(list[0], c)
  {
    assert list == [list[0]] + list[1..];
    forall c | c in keys - {list[0]}
      ensures c in list[1..] && Before(list[0], c)
    {
      var i :| 0 <= i < |list| && list[i] == c;
      assert i > 0 && list[1..][i - 1] == c;
    }
  }

  lemma ConsIsTabList(x: Id, list: seq<Id>, keys: set<Id>)
    requires IsTabList(list, keys) && x !in keys && forall c | c in keys :: Before(x, c)
    ensures IsTabList([x] + list, keys + {x})
  {
    forall j | 0 <= j < |list|
      ensures list[j] != x && Before(x, list[j])
    {
      assert list[j] in keys;
    }
  }

  lemma {:induction false} InsertedIsTabList(x: Id, list: seq<Id>, keys: set<Id>)
    requires IsTabList(list, keys) && x !in keys
    ensures IsTabList(Inserted(x, list), keys + {x})
  {
    hide IsTabList, Before;
    if list == [] {
      SingleIsTabList(x, list, keys);
    } else {
      var first := list[0];
      InFront(list, keys);
      TailIsTabList(list, keys);
      if Before(first, x) {
        InsertedIsTabList(x, list[1..], keys - {first});
        ConsIsTabList(first, Inserted(x, list[1..]), keys - {first} + {x});
        assert keys - {first} + {x} + {first} == keys + {x};
      } else {
        forall c | c in keys
          ensures Before(x, c)
        {
          BeforeIsOrder(x, first, c);
        }
        ConsIsTabList(x, list, keys);
      }
    }
  }

  lemma SingleIsTabList(x: Id, list: seq<Id>, keys: set<Id>)
    requires IsTabList(list, keys) && list == []
    ensures IsTabList([x], keys + {x})
  {
  }

  lemma InFront(list: seq<Id>, keys: set<Id>)
    requires IsTabList(list, keys) && list != []
    ensures list[0] in keys
  {
  }

  /** The order of the list is determined by the keys alone. */
  lemma {:induction false} TabListIsUnique(l1: seq<Id>, l2: seq<Id>, keys: set<Id>)
    requires IsTabList(l1, keys) && IsTabList(l2, keys)
    ensures l1 == l2
  {
    hide Before;
    if l1 != [] {
      assert l1[0] in l2 && l2 != [];
      assert l2[0] in l1;
      TailIsTabList(l1, keys);
      TailIsTabList(l2, keys);
      BeforeIsOrder(l1[0], l2[0], l1[0]);
      assert l1[0] == l2[0];
      TabListIsUnique(l1[1..], l2[1..], keys - {l1[0]});
      assert l1 == [l1[0]] + l1[1..] && l2 == [l2[0]] + l2[1..];
    } else if l2 != [] {
      InFront(l2, keys);
      assert false;
    }
  }

  lemma {:induction false} TabListExists(keys: set<Id>)
    ensures exists list :: IsTabList(list, keys)
  {
    if keys == {} {
      assert IsTabList([], keys);
    } else {
      var c :| c in keys;
      TabListExists(keys - {c});
      var list :| IsTabList(list, keys - {c});
      InsertedIsTabList(c, list, keys - {c});
      assert keys - {c} + {c} == keys;
    }
  }

  /** `channel_list` */
  ghost function TabList(keys: set<Id>): (list: seq<Id>)
    ensures IsTabList(list, keys)
  {
    TabListExists(keys);
    var list :| IsTabList(list, keys);
    list
  }

  lemma ServerComesFirst(keys: set<Id>)
    requires SERVER in keys
    ensures TabList(keys) != [] && TabList(keys)[0] == SERVER
  {
    var list := TabList(keys);
    var i :| 0 <= i < |list| && list[i] == SERVER;
  }

  /** Collects the keys in no particular order, and sorts. */
  method ChannelList<M>(channels: map<Id, Channel<M>>) returns (result: seq<Id>)
    ensures result == TabList(channels.Keys)
  {
    hide IsTabList, Inserted;
    result := [];
    var todo := channels.Keys;
    EmptyTabList();
    while todo != {}
      invariant todo <= channels.Keys && IsTabList(result, channels.Keys - todo)
      decreases todo
    {
      var c :| c in todo;
      InsertedIsTabList(c, result, channels.Keys - todo);
      assert channels.Keys - (todo - {c}) == channels.Keys - todo + {c};
      todo := todo - {c};
      result := Inserted(c, result);
    }
    assert channels.Keys - todo == channels.Keys;
    TabListIsUnique(result, TabList(channels.Keys), channels.Keys);
  }

  lemma EmptyTabList()
    ensures forall keys: set<Id> :: IsTabList([], keys - keys)
  {
  }

  // ---------------------------------------------------------------------------------------------
  // Switching
  // ---------------------------------------------------------------------------------------------

  function IndexOf(list: seq<Id>, c: Id): (i: nat)
    ensures c in list ==> i < |list| && list[i] == c
    ensures c !in list ==> i == |list|
  {
    if list == [] then 0 else if list[0] == c then 0 else 1 + IndexOf(list[1..], c)
  }

  function StepIndex(i: nat, n: nat, forward: bool): (j: nat)
    requires i < n
    ensures j < n
  {
    if forward then (if i + 1 < n then i + 1 else 0) else if i > 0 then i - 1 else n - 1
  }

  /** Where `switch_channel` begins to count. */
  function StartIndex(list: seq<Id>, active: Id): (i: nat)
    requires list != []
    ensures i < |list|
  {
    if active in list then IndexOf(list, active) else 0
  }

  /** Without an active channel, cycling goes on from the first one. */
  function CycleFrom(list: seq<Id>, active: Id): Id
    requires list != []
  {
    if active == "" then list[0] else active
  }

  /** The entry one step on from the active channel, in either direction, around the end. */
  function Neighbour(list: seq<Id>, active: Id, forward: bool): Id
    requires list != []
  {
    list[StepIndex(StartIndex(list, active), |list|, forward)]
  }

  /** The entry `delta` steps on. */
  function Ahead(list: seq<Id>, active: Id, delta: int): Id
    requires list != []
  {
    list[(StartIndex(list, active) + delta) % |list|]
  }

  lemma AheadByOne(list: seq<Id>, active: Id)
    requires list != []
    ensures Ahead(list, active, 1) == Neighbour(list, active, true)
    ensures Ahead(list, active, -1) == Neighbour(list, active, false)
  {
    var i: int, n := StartIndex(list, active), |list|;
    StepAround(i, n, true);
    StepAround(i, n, false);
    OnceMoreAround(i + 1, n);
    OnceMoreAround(i - 1, n);
  }

  /** `switch_to_channel` */
  function SwitchTo<M>(t: Tabs<M>, c: Id): Tabs<M> {
    Apply(Apply(t, Ensure(Canonical(c))), Activate(Canonical(c)))
  }

  ghost function Cycle<M>(t: Tabs<M>, forward: bool): Tabs<M> {
    var list := TabList(t.channels.Keys);
    if list == [] then t
    else SwitchTo(t, Neighbour(list, CycleFrom(list, t.active), forward))
  }

  lemma StepAround(i: nat, n: nat, forward: bool)
    requires i < n
    ensures (i + (if forward then 1 else -1) + n) % n == StepIndex(i, n, forward)
  {
    if forward || i > 0 {
      if forward && i + 1 == n { TwiceAround(n); } else { OnceAround(i + n + (if forward then 1 else -1), n); }
    } else {
      assert (n - 1) % n == n - 1;
    }
  }

  lemma OnceMoreAround(x: int, n: nat)
    requires n > 0
    ensures (x + n) % n == x % n
  {
    var q, r := x / n, x % n;
    assert x + n == (q + 1) * n + r;
    RemainderIs(x + n, n, q + 1, r);
  }

  lemma RemainderIs(x: int, n: nat, q: int, r: int)
    requires 0 <= r < n && x == q * n + r
    ensures x % n == r
  {
    var q', r' := x / n, x % n;
    assert (q - q') * n == r' - r;
    if q - q' >= 1 {
      AtLeastOnce(q - q', n);
      assert false;
    }
    if q - q' <= -1 {
      AtLeastOnce(q' - q, n);
      assert false;
    }
  }

  lemma AtLeastOnce(q: int, n: nat)
    requires q >= 1
    ensures q * n >= n
  {
    assert q * n == n + (q - 1) * n;
  }

  lemma TwiceAround(n: nat)
    requires n > 0
    ensures (n + n) % n == 0
  {
    assert (n + n) == 2 * n;
  }

  lemma OnceAround(x: nat, n: nat)
    requires 0 < n <= x < 2 * n
    ensures x % n == x - n
  {
    var q, r := x / n, x % n;
    assert x == q * n + r;
    if q >= 2 {
      Multiple(q, n);
      assert false;
    }
    if q == 0 { assert false; }
  }

  lemma Multiple(q: nat, n: nat)
    requires q >= 2
    ensures q * n >= 2 * n
  {
    assert q * n == 2 * n + (q - 2) * n;
  }

  // ---------------------------------------------------------------------------------------------
  // Cycling
  // ---------------------------------------------------------------------------------------------

  /** No tab but the reserved one is named like it. */
  ghost predicate NoAliases(keys: set<Id>) {
    forall c | c in keys :: Canonical(c) == c
  }

  lemma {:induction false} IndexIsUnique(list: seq<Id>, i: nat)
    requires i < |list| && forall j, k | 0 <= j < k < |list| :: list[j] != list[k]
    ensures IndexOf(list, list[i]) == i
  {
    if i > 0 { IndexIsUnique(list[1..], i - 1); }
  }

  /** Where a step leads from a tab that has a name. */
  lemma CycleLeadsTo<M>(t: Tabs<M>, forward: bool)
    requires t.active in t.channels && t.active != "" && SERVER in t.channels
    ensures Cycle(t, forward).active == Canonical(Neighbour(TabList(t.channels.Keys), t.active, forward))
    ensures Cycle(t, forward).channels.Keys == t.channels.Keys
  {
    var list := TabList(t.channels.Keys);
    assert t.active in list;
    var target := Neighbour(list, t.active, forward);
    assert target in list && Canonical(target) in t.channels;
    hide Canonical, IsTabList, Neighbour;
    SwitchKeepsKeys(t, target);
  }

  lemma SwitchKeepsKeys<M>(t: Tabs<M>, c: Id)
    requires Canonical(c) in t.channels
    ensures SwitchTo(t, c).channels.Keys == t.channels.Keys && SwitchTo(t, c).active == Canonical(c)
  {
  }

  /** And from the one without, which counts as the server tab. */
  lemma CycleFromUnnamed<M>(t: Tabs<M>, forward: bool)
    requires t.active == "" && SERVER in t.channels
    ensures Cycle(t, forward).active == Canonical(Neighbour(TabList(t.channels.Keys), SERVER, forward))
    ensures Cycle(t, forward).channels.Keys == t.channels.Keys
  {
    var list := TabList(t.channels.Keys);
    ServerComesFirst(t.channels.Keys);
    var target := Neighbour(list, SERVER, forward);
    assert target in list && Canonical(target) in t.channels;
    hide Canonical, IsTabList, Neighbour;
    SwitchKeepsKeys(t, target);
  }

  /** One step of cycling moves one place along the list, and changes no tab. */
  lemma CycleMovesOne<M>(t: Tabs<M>, i: nat, forward: bool)
    requires NoAliases(t.channels.Keys) && "" !in t.channels
    requires i < |TabList(t.channels.Keys)| && t.active == TabList(t.channels.Keys)[i]
    ensures var list := TabList(t.channels.Keys);
            Cycle(t, forward).channels.Keys == t.channels.Keys
            && Cycle(t, forward).active == list[StepIndex(i, |list|, forward)]
  {
    hide Canonical, SwitchTo;
    var list := TabList(t.channels.Keys);
    assert t.active in list && list[StepIndex(i, |list|, forward)] in list;
    IndexIsUnique(list, i);
    SwitchKeepsKeys(t, list[StepIndex(i, |list|, forward)]);
  }

  lemma ThereAndBack(list: seq<Id>, i: nat, forward: bool)
    requires i < |list| && forall j, k | 0 <= j < k < |list| :: list[j] != list[k]
    ensures Neighbour(list, list[i], forward) == list[StepIndex(i, |list|, forward)]
    ensures Neighbour(list, Neighbour(list, list[i], forward), !forward) == list[i]
  {
    IndexIsUnique(list, i);
    IndexIsUnique(list, StepIndex(i, |list|, forward));
  }

  /** Forward and then back, or back and then forward, returns to the same tab exactly when both tabs have
      names of their own; or when the first is the server tab and the step back, taken from there as well,
      is intercepted by a tab named like it. */
  lemma CycleBackAndForth<M>(t: Tabs<M>, forward: bool)
    requires t.active in t.channels && t.active != "" && SERVER in t.channels
    ensures var list := TabList(t.channels.Keys);
            var target := Neighbour(list, t.active, forward);
            Cycle(Cycle(t, forward), !forward).active == t.active
            <==> Canonical(t.active) == t.active
                 && ((Canonical(target) == target && target != "")
                     || (t.active == SERVER && Canonical(Neighbour(list, SERVER, !forward)) == SERVER))
  {
    var keys := t.channels.Keys;
    var list := TabList(keys);
    var i :| 0 <= i < |list| && list[i] == t.active;
    ServerComesFirst(keys);
    ThereAndBack(list, i, forward);
    var target := list[StepIndex(i, |list|, forward)];
    CycleLeadsTo(t, forward);
    var mid := Cycle(t, forward);
    ServerIsServerName();
    assert Canonical("") == "";
    if mid.active == "" {
      CycleFromUnnamed(mid, !forward);
      UnnamedComesSecond(keys);
    } else {
      CycleLeadsTo(mid, !forward);
    }
    ThereAndBack(list, 0, !forward);
    hide IsTabList, Cycle, Neighbour, Before;
    if Canonical(target) != target || target == "" {
      assert mid.active == SERVER || mid.active == "";
      BackFromServer(list, i, forward);
    }
  }

  /** After a step that the server tab or the unnamed tab intercepted, the step back starts at the server
      tab. It cannot meet the first tab again unless that is the server tab too. */
  lemma BackFromServer(list: seq<Id>, i: nat, forward: bool)
    requires i < |list| && (forall j, k | 0 <= j < k < |list| :: list[j] != list[k]) && list[0] == SERVER
    requires var target := list[StepIndex(i, |list|, forward)];
             Canonical(target) != target || (target == "" && target == list[1])
    ensures Canonical(list[StepIndex(0, |list|, !forward)]) == list[i]
            <==> list[i] == SERVER && Canonical(list[StepIndex(0, |list|, !forward)]) == SERVER
  {
    ServerIsServerName();
  }

  /** The empty name sorts in front of every other but the server tab's. */
  lemma UnnamedComesSecond(keys: set<Id>)
    requires SERVER in keys && "" in keys
    ensures |TabList(keys)| >= 2 && TabList(keys)[0] == SERVER && TabList(keys)[1] == ""
  {
    var list := TabList(keys);
    ServerComesFirst(keys);
    var i :| 0 <= i < |list| && list[i] == "";
    assert i >= 1 && list[1] != SERVER && !Before(list[1], "");
  }

  ghost function CycleTimes<M>(t: Tabs<M>, k: nat): Tabs<M> {
    if k == 0 then t else Cycle(CycleTimes(t, k - 1), true)
  }

  /** Cycling visits every tab: `k` steps forward, up to once around, are `k` places along the list. */
  lemma {:induction false} CycleVisitsAll<M>(t: Tabs<M>, i: nat, k: nat)
    requires NoAliases(t.channels.Keys) && "" !in t.channels
    requires i < |TabList(t.channels.Keys)| && t.active == TabList(t.channels.Keys)[i]
    requires k <= |TabList(t.channels.Keys)|
    ensures var list := TabList(t.channels.Keys);
            CycleTimes(t, k).channels.Keys == t.channels.Keys
            && CycleTimes(t, k).active == list[if i + k < |list| then i + k else i + k - |list|]
  {
    hide Cycle, IsTabList, NoAliases;
    var n := |TabList(t.channels.Keys)|;
    if k > 0 {
      CycleVisitsAll(t, i, k - 1);
      CycleMovesOne(CycleTimes(t, k - 1), if i + k - 1 < n then i + k - 1 else i + k - 1 - n, true);
    }
  }

  /** The entry `j` places on, up to once around. */
  function Place(list: seq<Id>, i: nat, j: nat): Id
    requires i < |list| && j <= |list|
  {
    list[if i + j < |list| then i + j else i + j - |list|]
  }

  lemma {:induction false} CycleKeepsTabs<M>(t: Tabs<M>, k: nat)
    requires SERVER in t.channels && t.active in t.channels
    ensures CycleTimes(t, k).channels.Keys == t.channels.Keys && CycleTimes(t, k).active in t.channels
  {
    hide Cycle;
    if k > 0 {
      CycleKeepsTabs(t, k - 1);
      CycleStaysInTabs(CycleTimes(t, k - 1));
    }
  }

  lemma CycleStaysInTabs<M>(t: Tabs<M>)
    requires SERVER in t.channels && t.active in t.channels
    ensures Cycle(t, true).channels.Keys == t.channels.Keys && Cycle(t, true).active in t.channels
  {
    if t.active == "" { CycleFromUnnamed(t, true); } else { CycleLeadsTo(t, true); }
    var list := TabList(t.channels.Keys);
    ServerComesFirst(t.channels.Keys);
    hide Cycle, Canonical, Before;
    assert forall active | list != [] :: Neighbour(list, active, true) in list;
    assert forall c | c in list :: c in t.channels;
    CanonicalStays(t.channels.Keys);
  }

  lemma CanonicalStays(keys: set<Id>)
    requires SERVER in keys
    ensures forall c | c in keys :: Canonical(c) in keys
  {
  }

  /** A step leads one place on exactly when it starts at a tab with a name and the next name is not the
      server tab's in other letters. */
  lemma StepFollowsIff<M>(t: Tabs<M>, i: nat)
    requires SERVER in t.channels
    requires i < |TabList(t.channels.Keys)| && t.active == TabList(t.channels.Keys)[i]
    ensures var next := TabList(t.channels.Keys)[StepIndex(i, |TabList(t.channels.Keys)|, true)];
            Cycle(t, true).active == next <==> t.active != "" && Canonical(next) == next
  {
    var list := TabList(t.channels.Keys);
    assert t.active in list;
    IndexIsUnique(list, i);
    if t.active == "" {
      UnnamedComesSecond(t.channels.Keys);
      assert i == 1;
      CycleFromUnnamed(t, true);
      IndexIsUnique(list, 0);
      assert Canonical("") == "";
    } else {
      CycleLeadsTo(t, true);
    }
  }

  /** Nothing stops the step from the entry `j` places on to the next one. */
  predicate IsPassable(list: seq<Id>, i: nat, j: nat)
    requires i < |list| && j < |list|
  {
    Place(list, i, j) != "" && Canonical(Place(list, i, j + 1)) == Place(list, i, j + 1)
  }

  ghost predicate FollowsList<M>(t: Tabs<M>, list: seq<Id>, i: nat, k: nat)
    requires i < |list| && k <= |list|
  {
    forall j | 0 <= j <= k :: CycleTimes(t, j).active == Place(list, i, j)
  }

  lemma FollowsFromStart<M>(t: Tabs<M>, list: seq<Id>, i: nat)
    requires list == TabList(t.channels.Keys) && i < |list| && t.active == list[i]
    ensures t.active in t.channels && FollowsList(t, list, i, 0)
  {
    assert list[i] in list;
  }

  lemma FollowsSnoc<M>(t: Tabs<M>, list: seq<Id>, i: nat, k: nat)
    requires i < |list| && 0 < k <= |list|
    ensures FollowsList(t, list, i, k)
            <==> FollowsList(t, list, i, k - 1) && CycleTimes(t, k).active == Place(list, i, k)
    ensures FollowsList(t, list, i, k - 1) ==> CycleTimes(t, k - 1).active == Place(list, i, k - 1)
  {
    hide CycleTimes, Place;
  }

  lemma FollowsOneMore<M>(t: Tabs<M>, list: seq<Id>, i: nat, k: nat)
    requires SERVER in t.channels && t.active in t.channels && list == TabList(t.channels.Keys)
    requires i < |list| && 0 < k <= |list| && CycleTimes(t, k - 1).active == Place(list, i, k - 1)
    ensures CycleTimes(t, k).active == Place(list, i, k) <==> IsPassable(list, i, k - 1)
  {
    hide Cycle, Canonical, IsTabList, TabList, Before;
    CycleKeepsTabs(t, k - 1);
    StepFollowsIff(CycleTimes(t, k - 1), if i + k - 1 < |list| then i + k - 1 else i + k - 1 - |list|);
  }

  /** Cycling follows the list exactly as far as it meets no tab that is named like the server tab in other
      letters, and does not have to go on from a tab without a name. */
  lemma {:induction false} CycleFollowsListIff<M>(t: Tabs<M>, list: seq<Id>, i: nat, k: nat)
    requires SERVER in t.channels && list == TabList(t.channels.Keys)
    requires i < |list| && t.active == list[i] && k <= |list|
    ensures FollowsList(t, list, i, k) <==> forall j | 0 <= j < k :: IsPassable(list, i, j)
  {
    hide FollowsList, IsPassable, CycleTimes, Place, Before, TabList, IsTabList;
    FollowsFromStart(t, list, i);
    if k > 0 {
      CycleFollowsListIff(t, list, i, k - 1);
      FollowsSnoc(t, list, i, k);
      if CycleTimes(t, k - 1).active == Place(list, i, k - 1) { FollowsOneMore(t, list, i, k); }
    }
  }
}
