/** The answer to `/names`: one text with a header line and a line per user, taken apart by
    `App::handle_command_response`. */
module NamesResponse {
  import opened Ids
  import opened Seqs
  import opened TextLines
  import opened Users

  /** How far the name of the channel is into the text, which "Users in " precedes. */
  const NAME_AT := 9

  /** `Throws`: `substr` begins behind the end of the text. */
  datatype Listing = Throws | NoHeader | Listed(channel: Id, users: seq<UserInfo>)

  // ---------------------------------------------------------------------------------------------
  // Taking the text apart
  // ---------------------------------------------------------------------------------------------

  predicate EndsHeader(msg: string, i: nat) {
    i + 2 <= |msg| && msg[i] == ':' && msg[i + 1] == '\n'
  }

  /** Where the first header line ends, or `|msg|`. */
  function HeaderEnd(msg: string, from: nat): (i: nat)
    requires from <= |msg|
    ensures from <= i <= |msg| && (forall j | from <= j < i :: !EndsHeader(msg, j))
    ensures i < |msg| ==> EndsHeader(msg, i)
    decreases |msg| - from
  {
    if from == |msg| || EndsHeader(msg, from) then from else HeaderEnd(msg, from + 1)
  }

  /** One line of the list: the prefix stands for the role. */
  function Entry(line: string): UserInfo
    requires line != ""
  {
    if line[0] == '@' then UserInfo(line[1..], Admin, Offline, Off)
    else if line[0] == '+' then UserInfo(line[1..], Voiced, Offline, Off)
    else UserInfo(line, Regular, Offline, Off)
  }

  function EntryIfAny(line: string): seq<UserInfo> { if line == "" then [] else [Entry(line)] }

  /** Empty lines are skipped. */
  function UsersOf(text: string): seq<UserInfo> { FlatMap(EntryIfAny, Lines(text, '\n')) }

  function Parsed(msg: string): Listing {
    var end := HeaderEnd(msg, 0);
    if end == |msg| then NoHeader
    else if |msg| < NAME_AT then Throws
    else Listed(if end >= NAME_AT then msg[NAME_AT..end] else msg[NAME_AT..], UsersOf(msg[end + 2..]))
  }

  /** The text is taken apart without an exception unless it has a header line and is
      shorter than what precedes the name. */
  lemma ThrowsIff(msg: string)
    ensures Parsed(msg) == Throws <==> |msg| < NAME_AT && exists i: nat :: EndsHeader(msg, i)
  {
    if Parsed(msg) == Throws { assert EndsHeader(msg, HeaderEnd(msg, 0)); }
  }

  /** A header line that ends before the name would begin: everything behind the fixed words is the name. */
  lemma EarlyHeader(msg: string, i: nat)
    requires |msg| >= NAME_AT && i < NAME_AT && EndsHeader(msg, i) && forall j: nat | j < i :: !EndsHeader(msg, j)
    ensures Parsed(msg) == Listed(msg[9..], UsersOf(msg[i + 2..]))
  {
    HeaderEndIs(msg, i);
  }

  lemma NextLine(line: string, rest: string)
    requires '\n' !in line
    ensures UsersOf(line + ['\n'] + rest) == EntryIfAny(line) + UsersOf(rest)
  {
    SplitLines(line, rest, '\n');
    OneLine(line, '\n');
    assert ([line] + Lines(rest, '\n'))[1..] == Lines(rest, '\n');
  }

  lemma LastLine(line: string)
    requires '\n' !in line
    ensures UsersOf(line) == EntryIfAny(line)
  {
    OneLine(line, '\n');
    assert FlatMap(EntryIfAny, [line]) == EntryIfAny(line) + FlatMap(EntryIfAny, []);
  }

  /** `std::getline`, from `pos` on: the end of the line. */
  method LineEnd(text: string, pos: nat) returns (end: nat)
    requires pos <= |text|
    ensures pos <= end <= |text| && '\n' !in text[pos..end] && (end < |text| ==> text[end] == '\n')
  {
    end := pos;
    while end < |text| && text[end] != '\n'
      invariant pos <= end <= |text| && '\n' !in text[pos..end]
    {
      end := end + 1;
    }
  }

  method ReadUsers(text: string) returns (users: seq<UserInfo>)
    ensures users == UsersOf(text)
  {
    hide UsersOf, Entry;
    users := [];
    var pos := 0;
    assert text[0..] == text;
    while pos < |text|
      invariant pos <= |text| && users + UsersOf(text[pos..]) == UsersOf(text)
      decreases |text| - pos
    {
      var end := LineEnd(text, pos);
      var line := text[pos..end];
      ghost var rest := if end < |text| then text[end + 1..] else "";
      if end < |text| {
        assert text[pos..] == line + ['\n'] + rest;
        NextLine(line, rest);
      } else {
        assert text[pos..] == line;
        LastLine(line);
        LastLine("");
      }
      Reassociate(users, EntryIfAny(line), UsersOf(rest));
      if line != "" { users := users + [Entry(line)]; }
      pos := if end < |text| then end + 1 else end;
      assert text[pos..] == rest;
    }
    assert text[|text|..] == "";
    LastLine("");
  }

  method ParseNames(msg: string) returns (r: Listing)
    ensures r == Parsed(msg)
  {
    var end := 0;
    while end < |msg| && !(end + 2 <= |msg| && msg[end] == ':' && msg[end + 1] == '\n')
      invariant end <= |msg| && HeaderEnd(msg, end) == HeaderEnd(msg, 0)
    {
      end := end + 1;
    }
    if end == |msg| { return NoHeader; }
    if |msg| < NAME_AT { return Throws; }
    var channel := if end >= NAME_AT then msg[NAME_AT..end] else msg[NAME_AT..];
    var users := ReadUsers(msg[end + 2..]);
    r := Listed(channel, users);
  }

  // ---------------------------------------------------------------------------------------------
  // What a server can say with it
  // ---------------------------------------------------------------------------------------------

  function Line(u: UserInfo): string {
    match u.role
    case Admin => "@" + u.userId
    case Voiced => "+" + u.userId
    case Regular => u.userId
  }

  function Text(users: seq<UserInfo>): string {
    if users == [] then "" else Line(users[0]) + ['\n'] + Text(users[1..])
  }

  function Rendered(channel: Id, users: seq<UserInfo>): string {
    "Users in " + channel + ":\n" + Text(users)
  }

  /** A line can carry the user: without a role, the name must not look like one. Presence and voice
      status are not part of the text. */
  predicate IsLegible(u: UserInfo) {
    && '\n' !in u.userId && u.presence == Offline && u.voice == Off
    && (u.role == Regular ==> u.userId != "" && u.userId[0] != '@' && u.userId[0] != '+')
  }

  ghost predicate IsLegibleName(channel: Id) { forall i: nat :: !EndsHeader(channel, i) }

  lemma EntriesAreLegible(line: string)
    requires '\n' !in line && line != ""
    ensures IsLegible(Entry(line))
  {
  }

  lemma {:induction false} AllEntriesLegible(lines: seq<string>)
    requires forall k | 0 <= k < |lines| :: '\n' !in lines[k]
    ensures forall k | 0 <= k < |FlatMap(EntryIfAny, lines)| :: IsLegible(FlatMap(EntryIfAny, lines)[k])
  {
    hide Entry, IsLegible;
    if lines != [] {
      AllEntriesLegible(lines[1..]);
      if lines[0] != "" { EntriesAreLegible(lines[0]); }
    }
  }

  lemma LegibleLine(u: UserInfo)
    requires IsLegible(u)
    ensures '\n' !in Line(u) && EntryIfAny(Line(u)) == [u]
  {
  }

  lemma {:induction false} TextRoundTrip(users: seq<UserInfo>)
    requires forall k | 0 <= k < |users| :: IsLegible(users[k])
    ensures UsersOf(Text(users)) == users
  {
    hide IsLegible, UsersOf, EntryIfAny, Line;
    if users == [] {
      LastLine("");
      assert EntryIfAny("") == [] by { NoEntry(); }
    } else {
      LegibleLine(users[0]);
      TextRoundTrip(users[1..]);
      NextLine(Line(users[0]), Text(users[1..]));
    }
  }

  lemma NoEntry()
    ensures EntryIfAny("") == []
  {
  }

  lemma HeaderEndIs(msg: string, i: nat)
    requires EndsHeader(msg, i) && forall j: nat | j < i :: !EndsHeader(msg, j)
    ensures HeaderEnd(msg, 0) == i
  {
  }

  /** The first header line of a rendered list ends behind the name of the channel, or within it. */
  lemma RenderedHeader(channel: Id, users: seq<UserInfo>)
    ensures var msg, end := Rendered(channel, users), HeaderEnd(Rendered(channel, users), 0);
            NAME_AT <= end <= NAME_AT + |channel| && end + 2 <= |msg|
            && (IsLegibleName(channel) <==> end == NAME_AT + |channel|)
  {
    var msg := Rendered(channel, users);
    var at := NAME_AT + |channel|;
    assert msg[..NAME_AT] == "Users in ";
    assert forall j: nat | j < NAME_AT :: msg[j] == msg[..NAME_AT][j] != ':';
    assert forall j: nat | j < |channel| :: msg[NAME_AT + j] == channel[j];
    assert msg[at] == ':' && msg[at + 1] == '\n';
    hide Rendered, Text;
    assert forall j: nat :: EndsHeader(channel, j) ==> EndsHeader(msg, NAME_AT + j);
    assert forall j: nat | j < |channel| :: EndsHeader(msg, NAME_AT + j) ==> EndsHeader(channel, j);
    if IsLegibleName(channel) {
      forall j: nat | j < at
        ensures !EndsHeader(msg, j)
      {
        if j >= NAME_AT { assert !EndsHeader(channel, j - NAME_AT); }
      }
      HeaderEndIs(msg, at);
    } else {
      var j: nat :| EndsHeader(channel, j);
      assert EndsHeader(msg, NAME_AT + j);
    }
    assert EndsHeader(msg, at);
  }

  lemma RenderedParts(channel: Id, users: seq<UserInfo>)
    ensures var msg, at := Rendered(channel, users), NAME_AT + |channel|;
            at + 2 <= |msg| && msg[NAME_AT..at] == channel && msg[at + 2..] == Text(users)
  {
  }

  lemma LegibleComesBack(channel: Id, users: seq<UserInfo>)
    requires IsLegibleName(channel) && forall k | 0 <= k < |users| :: IsLegible(users[k])
    ensures Parsed(Rendered(channel, users)) == Listed(channel, users)
  {
    hide Rendered, Text, IsLegible, IsLegibleName, HeaderEnd, UsersOf;
    RenderedHeader(channel, users);
    RenderedParts(channel, users);
    TextRoundTrip(users);
  }

  lemma UsersAreLegible(text: string)
    ensures forall k | 0 <= k < |UsersOf(text)| :: IsLegible(UsersOf(text)[k])
  {
    hide IsLegible;
    var lines := Lines(text, '\n');
    forall k | 0 <= k < |lines|
      ensures '\n' !in lines[k]
    {
      LinesArePlain(text, '\n', k);
    }
    AllEntriesLegible(lines);
  }

  lemma ComingBackIsLegible(channel: Id, users: seq<UserInfo>)
    requires Parsed(Rendered(channel, users)) == Listed(channel, users)
    ensures IsLegibleName(channel) && forall k | 0 <= k < |users| :: IsLegible(users[k])
  {
    hide Rendered, Text, IsLegible, IsLegibleName, HeaderEnd, UsersOf;
    var msg := Rendered(channel, users);
    var end := HeaderEnd(msg, 0);
    RenderedHeader(channel, users);
    assert |msg[NAME_AT..end]| == |channel|;
    UsersAreLegible(msg[end + 2..]);
  }

  /** A list of users comes back out of its text exactly when the name of the channel and every user are
      legible. */
  lemma NamesRoundTripIff(channel: Id, users: seq<UserInfo>)
    ensures Parsed(Rendered(channel, users)) == Listed(channel, users)
            <==> IsLegibleName(channel) && forall k | 0 <= k < |users| :: IsLegible(users[k])
  {
    hide Parsed, Rendered, IsLegible, IsLegibleName;
    if Parsed(Rendered(channel, users)) == Listed(channel, users) {
      ComingBackIsLegible(channel, users);
    } else if IsLegibleName(channel) && forall k | 0 <= k < |users| :: IsLegible(users[k]) {
      LegibleComesBack(channel, users);
    }
  }
}
