/** Channel names as `App` takes them from the user: the reserved tab, trimming and sanitising. */
module ChannelNames {
  import opened Ids
  import opened Seqs

  /** `std::tolower` in the C locale */
  function Lower(c: char): char {
    if 'A' <= c <= 'Z' then c - 'A' + 'a' else c
  }

  predicate IsSpace(c: char) {
    c == ' ' || '\t' <= c <= '\r'
  }

  predicate IsValidChannelChar(c: char) {
    'a' <= c <= 'z' || 'A' <= c <= 'Z' || '0' <= c <= '9' || c == '_' || c == '-' || c == '.'
  }

  /** The name of the server tab, in any mixture of cases. */
  predicate IsServerName(s: Id) {
    |s| == |SERVER| && forall i | 0 <= i < |s| :: Lower(s[i]) == SERVER[i]
  }

  method IsServerChannel(s: Id) returns (r: bool)
    ensures r == IsServerName(s)
  {
    if |s| != 6 { return false; }
    for i := 0 to |s|
      invariant forall j | 0 <= j < i :: Lower(s[j]) == SERVER[j]
    {
      if Lower(s[i]) != SERVER[i] { return false; }
    }
    return true;
  }

  function Canonical(s: Id): Id { if IsServerName(s) then SERVER else s }

  predicate AllSpace(text: string, a: nat, b: nat)
    requires a <= b <= |text|
  {
    forall i | a <= i < b :: IsSpace(text[i])
  }

  /** Everything outside the bounds is white space; what they enclose begins and ends with something
      else. */
  predicate AreBounds(text: string, a: nat, b: nat) {
    && a <= b <= |text| && AllSpace(text, 0, a) && AllSpace(text, b, |text|)
    && (a < b ==> !IsSpace(text[a]) && !IsSpace(text[b - 1]))
  }

  /** `t` is `text` without the white space at its ends. */
  ghost predicate IsTrimmed(text: string, t: string) {
    exists a: nat, b: nat :: AreBounds(text, a, b) && t == text[a..b]
  }

  method TrimAsciiWhitespace(text: string) returns (t: string)
    ensures IsTrimmed(text, t)
  {
    var start, end := 0, |text|;
    while start < end && IsSpace(text[start])
      invariant start <= end && forall i | 0 <= i < start :: IsSpace(text[i])
    {
      start := start + 1;
    }
    while end > start && IsSpace(text[end - 1])
      invariant start <= end <= |text| && forall i | end <= i < |text| :: IsSpace(text[i])
      invariant start < end ==> !IsSpace(text[start])
    {
      end := end - 1;
    }
    t := text[start..end];
    assert AreBounds(text, start, end);
  }

  lemma BoundsInside(text: string, a: nat, b: nat, c: nat, d: nat)
    requires AreBounds(text, a, b) && AreBounds(text, c, d) && a < b
    ensures c <= a && b <= d
  {
  }

  /** Trimming has one result. */
  lemma TrimmedIsUnique(text: string, t: string, u: string)
    requires IsTrimmed(text, t) && IsTrimmed(text, u)
    ensures t == u
  {
    var a: nat, b: nat :| AreBounds(text, a, b) && t == text[a..b];
    var c: nat, d: nat :| AreBounds(text, c, d) && u == text[c..d];
    if a < b { BoundsInside(text, a, b, c, d); }
    if c < d { BoundsInside(text, c, d, a, b); }
  }

  /** A name that goes on the wire and becomes a tab. */
  predicate IsChannelName(s: Id) {
    |s| >= 2 && s[0] == '#' && forall i | 1 <= i < |s| :: IsValidChannelChar(s[i])
  }

  /** What a trimmed name becomes: the reserved tab, a channel name with its '#', or nothing. */
  function Sanitized(trimmed: string): (r: Option<Id>)
    ensures r.Some? ==> r.value == SERVER || IsChannelName(r.value)
  {
    if trimmed == "" then None
    else if IsServerName(trimmed) then Some(SERVER)
    else
      var channel := if trimmed[0] == '#' then trimmed else "#" + trimmed;
      if IsChannelName(channel) then Some(channel) else None
  }

  method SanitizeChannelName(rawName: string) returns (r: Option<Id>)
    ensures exists t :: IsTrimmed(rawName, t) && r == Sanitized(t)
  {
    var channel := TrimAsciiWhitespace(rawName);
    ghost var trimmed := channel;
    if channel == "" { return None; }
    var isServer := IsServerChannel(channel);
    if isServer { return Some(SERVER); }
    if channel[0] != '#' { channel := "#" + channel; }
    if |channel| == 1 { return None; }
    for i := 1 to |channel|
      invariant forall j | 1 <= j < i :: IsValidChannelChar(channel[j])
    {
      if !IsValidChannelChar(channel[i]) { return None; }
    }
    r := Some(channel);
  }

  /** Sanitising is idempotent: its results are trimmed, and sanitised to themselves. */
  lemma SanitizedIsStable(t: string)
    requires Sanitized(t).Some?
    ensures IsTrimmed(Sanitized(t).value, Sanitized(t).value)
    ensures Sanitized(Sanitized(t).value) == Sanitized(t)
  {
    var s := Sanitized(t).value;
    assert s == s[0..|s|];
    if s == SERVER {
      ServerIsServerName();
    } else {
      assert Lower('#') == '#';
    }
    assert AreBounds(s, 0, |s|);
  }

  lemma ServerIsServerName()
    ensures IsServerName(SERVER)
  {
  }

  /** No sanitised name but the reserved one is the server tab's in any case. */
  lemma ChannelNamesAreNotServer(s: Id)
    requires IsChannelName(s)
    ensures !IsServerName(s) && Canonical(s) == s
  {
    assert Lower(s[0]) == '#';
  }

  // ---------------------------------------------------------------------------------------------
  // Names, letter by letter
  // ---------------------------------------------------------------------------------------------

  /** Which characters are what, by their codes. */
  lemma LettersByCode(c: char)
    ensures var n := c as int;
            && Lower(c) as int == (if 65 <= n <= 90 then n + 32 else n)
            && (IsSpace(c) <==> n == 32 || 9 <= n <= 13)
            && (IsValidChannelChar(c) <==> 48 <= n <= 57 || 65 <= n <= 90 || 97 <= n <= 122 || n in {45, 46, 95})
  {
  }

  lemma ServerInAnyCase(s: Id)
    ensures IsServerName(s) <==>
              |s| == 6 && s[0] in "sS" && s[1] in "eE" && s[2] in "rR" && s[3] in "vV" && s[4] in "eE" && s[5] in "rR"
  {
  }

  /** A trimmed name stands for a channel exactly as it is, or with the '#' that it lacks; in any case of its
      letters the reserved name stands for the server tab; nothing else stands for anything. */
  lemma SanitizedIff(t: string, r: Id)
    ensures Sanitized(t) == Some(r) <==>
              if IsServerName(t) then r == SERVER
              else IsChannelName(r) && (r == t || (r == "#" + t && t != "" && t[0] != '#'))
  {
    if t != "" { assert ("#" + t)[0] == '#'; }
  }
}
