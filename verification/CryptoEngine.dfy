/** The state `CryptoEngine` keeps around the Signal library: which channels have been given the
    sender key, which peers have a session, and the one-time pre-key counter. The library itself is
    abstract: a chain of message keys per channel, and calls that may fail. */
module CryptoEngine {
  import opened Ids
  import opened Seqs

  predicate IsGroup(id: Id) { id != [] && id[0] == '#' }

  // ---------------------------------------------------------------------------------------------
  // Sender keys
  // ---------------------------------------------------------------------------------------------

  /** A sender-key chain: its key, and how many messages it has produced. */
  datatype Chain = Chain(key: nat, iteration: nat)

  /** What the library makes of a plaintext: readable by a holder of the chain at this iteration. */
  datatype Ciphertext<M> = Ciphertext(at: Chain, text: M)

  datatype ChatEnvelope<M> =
    | Group(channel: Id, ct: Ciphertext<M>, skdm: Option<Chain>)
    | Direct(recipient: Id, text: M)

  /** How the library behaves during one call: `create_session` may install a new chain over an old
      one, and either call may throw; encryption before or after it has stored the advanced chain. */
  datatype Outcome = Outcome(newKey: nat, renew: bool, createThrows: bool, encryptThrows: bool, advances: bool)

  /** The sending side of group messages. */
  datatype Sender = Sender(chains: map<Id, Chain>, sentSkdm: set<Id>) {
    ghost predicate Valid() { sentSkdm <= chains.Keys }

    /** `create_session`: the chain of the channel afterwards. */
    function Created(channel: Id, o: Outcome): Chain {
      if channel in chains && !o.renew then chains[channel] else Chain(o.newKey, 0)
    }
  }

  function Advance(c: Chain): Chain { Chain(c.key, c.iteration + 1) }

  /** The chain after an attempt to encrypt with it. */
  function AfterTry(c: Chain, o: Outcome): Chain {
    if o.encryptThrows && !o.advances then c else Advance(c)
  }

  /** The group branch of `encrypt`. The distribution message goes out with the first envelope that is
      built without an exception. */
  function EncryptGroup<M>(s: Sender, channel: Id, text: M, o: Outcome): (r: (Sender, Option<ChatEnvelope<M>>))
    requires s.Valid()
    ensures r.0.Valid()
  {
    if channel !in s.sentSkdm then
      var c := s.Created(channel, o);
      if o.createThrows then (s.(chains := s.chains[channel := c]), None)
      else if o.encryptThrows then (s.(chains := s.chains[channel := AfterTry(c, o)]), None)
      else (Sender(s.chains[channel := Advance(c)], s.sentSkdm + {channel}),
            Some(Group(channel, Ciphertext(c, text), Some(c))))
    else
      var c := s.chains[channel];
      if o.encryptThrows then (s.(chains := s.chains[channel := AfterTry(c, o)]), None)
      else (s.(chains := s.chains[channel := Advance(c)]), Some(Group(channel, Ciphertext(c, text), None)))
  }

  // ---------------------------------------------------------------------------------------------
  // The receiving side
  // ---------------------------------------------------------------------------------------------

  /** What a receiver knows of one sender's chains. */
  type Receiver = map<Id, Chain>

  /** The group branch of `decrypt`: learn the chain if the envelope brings one, then decrypt with it. A
      chain opens messages at its own iteration or ahead of it. */
  function DecryptGroup<M>(r: Receiver, env: ChatEnvelope<M>): (Receiver, Option<M>)
    requires env.Group?
  {
    var known := if env.skdm.Some? then r[env.channel := env.skdm.value] else r;
    if env.channel in known && known[env.channel].key == env.ct.at.key
       && known[env.channel].iteration <= env.ct.at.iteration
    then (known[env.channel := Advance(env.ct.at)], Some(env.ct.text))
    else (known, None)
  }

  /** Nothing is read twice: a message that has been decrypted, or one from before it, is refused unless it
      brings the chain again. */
  lemma ReplayIsRefused<M>(r: Receiver, env: ChatEnvelope<M>, again: ChatEnvelope<M>)
    requires env.Group? && again.Group? && DecryptGroup(r, env).1.Some?
    requires again.channel == env.channel && again.skdm == None
    requires again.ct.at.key == env.ct.at.key ==> again.ct.at.iteration <= env.ct.at.iteration
    ensures DecryptGroup(DecryptGroup(r, env).0, again).1 == None
  {
  }

  function DecryptAll<M>(r: Receiver, envs: seq<ChatEnvelope<M>>): seq<Option<M>>
    requires forall k | 0 <= k < |envs| :: envs[k].Group?
    decreases |envs|
  {
    if envs == [] then []
    else [DecryptGroup(r, envs[0]).1] + DecryptAll(DecryptGroup(r, envs[0]).0, envs[1..])
  }

  // ---------------------------------------------------------------------------------------------
  // Runs of group sends
  // ---------------------------------------------------------------------------------------------

  datatype Send<M> = Send(channel: Id, text: M, outcome: Outcome)

  /** The envelopes a run of sends produces, in order. */
  function Envelopes<M>(s: Sender, sends: seq<Send<M>>): (envs: seq<ChatEnvelope<M>>)
    requires s.Valid()
    ensures forall k | 0 <= k < |envs| :: envs[k].Group?
    decreases |sends|
  {
    if sends == [] then []
    else
      var (s', env) := EncryptGroup(s, sends[0].channel, sends[0].text, sends[0].outcome);
      (if env.Some? then [env.value] else []) + Envelopes(s', sends[1..])
  }

  lemma EncryptAnnounces<M>(s: Sender, channel: Id, text: M, o: Outcome)
    requires s.Valid()
    ensures var (s', env) := EncryptGroup(s, channel, text, o);
            match env
            case None => s'.sentSkdm == s.sentSkdm
            case Some(e) => e.Group? && e.channel == channel && (e.skdm.Some? <==> channel !in s.sentSkdm)
                            && s'.sentSkdm == s.sentSkdm + {channel}
  {
  }

  /** No earlier envelope is for the same channel. */
  ghost predicate IsFirstOfChannel<M>(envs: seq<ChatEnvelope<M>>, k: nat)
    requires k < |envs| && forall j | 0 <= j < |envs| :: envs[j].Group?
  {
    forall j | 0 <= j < k :: envs[j].channel != envs[k].channel
  }

  lemma HeadIsFirst<M>(envs: seq<ChatEnvelope<M>>)
    requires envs != [] && forall j | 0 <= j < |envs| :: envs[j].Group?
    ensures IsFirstOfChannel(envs, 0)
  {
  }

  lemma FirstBehindHead<M>(env: ChatEnvelope<M>, rest: seq<ChatEnvelope<M>>, k: nat)
    requires k < |rest| && env.Group? && forall j | 0 <= j < |rest| :: rest[j].Group?
    ensures forall j | 0 <= j < |[env] + rest| :: ([env] + rest)[j].Group?
    ensures IsFirstOfChannel([env] + rest, k + 1) <==> env.channel != rest[k].channel && IsFirstOfChannel(rest, k)
  {
    var envs := [env] + rest;
    assert envs[0] == env;
    assert forall j | 0 <= j < k :: envs[j + 1] == rest[j];
  }

  lemma EnvelopesTurn<M>(s: Sender, sends: seq<Send<M>>)
    requires s.Valid() && sends != []
    ensures var (s', env) := EncryptGroup(s, sends[0].channel, sends[0].text, sends[0].outcome);
            Envelopes(s, sends) == (if env.Some? then [env.value] else []) + Envelopes(s', sends[1..])
  {
  }

  /** In every run, an envelope carries the distribution message exactly when it is the first one of its
      channel since the engine started. */
  lemma {:induction false} SkdmExactlyOnFirst<M>(s: Sender, sends: seq<Send<M>>, k: nat)
    requires s.Valid() && k < |Envelopes(s, sends)|
    ensures var envs := Envelopes(s, sends);
            envs[k].skdm.Some? <==> envs[k].channel !in s.sentSkdm && IsFirstOfChannel(envs, k)
    decreases |sends|
  {
    EnvelopesTurn(s, sends);
    EncryptAnnounces(s, sends[0].channel, sends[0].text, sends[0].outcome);
    hide EncryptGroup, IsFirstOfChannel, Envelopes;
    var (s', env) := EncryptGroup(s, sends[0].channel, sends[0].text, sends[0].outcome);
    var envs, rest := Envelopes(s, sends), Envelopes(s', sends[1..]);
    if env.None? {
      assert envs == rest;
      SkdmExactlyOnFirst(s', sends[1..], k);
    } else if k == 0 {
      HeadIsFirst(envs);
    } else {
      assert envs[k] == rest[k - 1];
      SkdmExactlyOnFirst(s', sends[1..], k - 1);
      FirstBehindHead(env.value, rest, k - 1);
    }
  }

  /** On every channel that has been announced the receiver has the sender's chain, at its iteration or
      behind it: a call that failed may have used an iteration up. */
  ghost predicate InStep(s: Sender, r: Receiver)
    requires s.Valid()
  {
    forall c | c in s.sentSkdm ::
      c in r && r[c].key == s.chains[c].key && r[c].iteration <= s.chains[c].iteration
  }

  lemma ReceiverKeepsStep<M>(s: Sender, r: Receiver, send: Send<M>)
    requires s.Valid() && InStep(s, r)
    ensures var (s', env) := EncryptGroup(s, send.channel, send.text, send.outcome);
            match env
            case None => InStep(s', r)
            case Some(e) => DecryptGroup(r, e).1 == Some(send.text) && InStep(s', DecryptGroup(r, e).0)
  {
  }

  /** A receiver that processes one sender's envelopes from the first one on, in order, decrypts every
      one of them, whatever failed on the sending side. */
  lemma {:induction false} ReceiverDecryptsEverything<M>(s: Sender, r: Receiver, sends: seq<Send<M>>)
    requires s.Valid() && InStep(s, r)
    ensures var envs := Envelopes(s, sends);
            && |DecryptAll(r, envs)| == |envs|
            && forall k | 0 <= k < |envs| :: DecryptAll(r, envs)[k] == Some(envs[k].ct.text)
    decreases |sends|
  {
    if sends != [] {
      var (s', env) := EncryptGroup(s, sends[0].channel, sends[0].text, sends[0].outcome);
      ReceiverKeepsStep(s, r, sends[0]);
      var envs, rest := Envelopes(s, sends), Envelopes(s', sends[1..]);
      if env.None? {
        assert envs == rest;
        ReceiverDecryptsEverything(s', r, sends[1..]);
      } else {
        assert envs == [env.value] + rest && envs[1..] == rest;
        var r' := DecryptGroup(r, env.value).0;
        ReceiverDecryptsEverything(s', r', sends[1..]);
        assert DecryptAll(r, envs) == [Some(sends[0].text)] + DecryptAll(r', rest);
      }
    }
  }

  /** Which texts get through: those of the sends without an exception, in order. */
  lemma {:induction false} EnvelopesAreTheSuccessfulSends<M>(s: Sender, sends: seq<Send<M>>, texts: seq<M>)
    requires s.Valid()
    requires texts == SuccessfulTexts(s.sentSkdm, sends)
    ensures |Envelopes(s, sends)| == |texts|
    ensures forall k | 0 <= k < |texts| :: Envelopes(s, sends)[k].ct.text == texts[k]
    decreases |sends|
  {
    if sends != [] {
      var (s', env) := EncryptGroup(s, sends[0].channel, sends[0].text, sends[0].outcome);
      var rest := SuccessfulTexts(s'.sentSkdm, sends[1..]);
      EnvelopesAreTheSuccessfulSends(s', sends[1..], rest);
      var envs := Envelopes(s, sends);
      if env.Some? {
        assert s'.sentSkdm == s.sentSkdm + {sends[0].channel};
        assert texts == [sends[0].text] + rest;
        assert envs == [env.value] + Envelopes(s', sends[1..]);
      } else {
        assert texts == rest && envs == Envelopes(s', sends[1..]);
      }
    }
  }

  /** A send gets through unless encryption throws, or creation does while the channel is unannounced. */
  function SuccessfulTexts<M>(announced: set<Id>, sends: seq<Send<M>>): seq<M>
    decreases |sends|
  {
    if sends == [] then []
    else
      var x := sends[0];
      if x.outcome.encryptThrows || (x.outcome.createThrows && x.channel !in announced)
      then SuccessfulTexts(announced, sends[1..])
      else [x.text] + SuccessfulTexts(announced + {x.channel}, sends[1..])
  }

  /** A receiver without the chain of a channel decrypts nothing there until an envelope brings it; by
      `SkdmExactlyOnFirst` that is only ever the first. */
  lemma {:induction false} LatecomerDecryptsNothing<M>(r: Receiver, envs: seq<ChatEnvelope<M>>, channel: Id, k: nat)
    requires forall j | 0 <= j < |envs| :: envs[j].Group?
    requires channel !in r && k < |envs| && envs[k].channel == channel
    requires forall j | 0 <= j <= k :: envs[j].channel == channel ==> envs[j].skdm.None?
    ensures k < |DecryptAll(r, envs)| && DecryptAll(r, envs)[k] == None
    decreases |envs|
  {
    if k > 0 {
      var r' := DecryptGroup(r, envs[0]).0;
      assert envs[0].channel == channel ==> envs[0].skdm.None?;
      assert forall j | 0 <= j <= k - 1 :: envs[1..][j] == envs[j + 1];
      LatecomerDecryptsNothing(r', envs[1..], channel, k - 1);
    }
  }

  // ---------------------------------------------------------------------------------------------
  // One-time pre-keys
  // ---------------------------------------------------------------------------------------------

  type U32 = x: nat | x < 0x1_0000_0000

  /** The ids of `n` keys from `next` on, as `uint32_t` counts. */
  function KeyIds(next: U32, n: nat): (ids: seq<U32>)
    ensures |ids| == n
  {
    seq(n, i requires 0 <= i < n => (next + i) % 0x1_0000_0000)
  }

  function AfterUpload(next: U32, n: nat): U32 { (next + n) % 0x1_0000_0000 }

  /** All ids that a sequence of uploads hands out, in order. */
  function UploadedIds(next: U32, uploads: seq<nat>): seq<U32>
    decreases |uploads|
  {
    if uploads == [] then [] else KeyIds(next, uploads[0]) + UploadedIds(AfterUpload(next, uploads[0]), uploads[1..])
  }

  function Total(uploads: seq<nat>): nat {
    if uploads == [] then 0 else uploads[0] + Total(uploads[1..])
  }

  lemma WrapsOnce(x: nat, i: nat)
    ensures (x % 0x1_0000_0000 + i) % 0x1_0000_0000 == (x + i) % 0x1_0000_0000
  {
  }

  /** Uploads number their keys without a gap. */
  lemma {:induction false} UploadsCountOn(next: U32, uploads: seq<nat>)
    ensures UploadedIds(next, uploads) == KeyIds(next, Total(uploads))
    decreases |uploads|
  {
    if uploads != [] {
      var n, rest := uploads[0], Total(uploads[1..]);
      UploadsCountOn(AfterUpload(next, n), uploads[1..]);
      forall i: nat | i < rest
        ensures KeyIds(AfterUpload(next, n), rest)[i] == KeyIds(next, n + rest)[n + i]
      {
        WrapsOnce(next + n, i);
      }
    }
  }

  /** The k-th id ever given out is `next + k`, in 32 bits. */
  lemma NthId(next: U32, uploads: seq<nat>, k: nat)
    requires k < Total(uploads)
    ensures |UploadedIds(next, uploads)| == Total(uploads)
    ensures UploadedIds(next, uploads)[k] == (next + k) % 0x1_0000_0000
  {
    UploadsCountOn(next, uploads);
  }

  /** No id is handed out twice exactly as long as the 32-bit counter has not come round. */
  lemma IdsDistinctIff(next: U32, uploads: seq<nat>)
    ensures (forall i, j | 0 <= i < j < Total(uploads) ::
               KeyIds(next, Total(uploads))[i] != KeyIds(next, Total(uploads))[j])
            <==> Total(uploads) <= 0x1_0000_0000
  {
    var n := Total(uploads);
    if n > 0x1_0000_0000 {
      assert KeyIds(next, n)[0] == KeyIds(next, n)[0x1_0000_0000];
    }
  }

  // ---------------------------------------------------------------------------------------------
  // The engine as an object
  // ---------------------------------------------------------------------------------------------

  class CryptoEngine<M, K> {
    /** The library's chain store */
    var chains: map<Id, Chain>
    var sentSkdmChannels: set<Id>
    /** Peers with a session in the library's store */
    var sessions: set<Id>
    var pendingPlaintexts: map<Id, M>
    var nextOpkId: U32
    /** The pre-key table of the local store */
    var preKeys: map<U32, K>

    function State(): Sender
      reads this
    {
      Sender(chains, sentSkdmChannels)
    }

    ghost predicate Valid()
      reads this
    {
      State().Valid()
    }

    constructor (chains: map<Id, Chain>, sessions: set<Id>, preKeys: map<U32, K>)
      ensures Valid() && State() == Sender(chains, {}) && this.sessions == sessions
      ensures nextOpkId == 1 && this.preKeys == preKeys && pendingPlaintexts == map[]
    {
      this.chains, sentSkdmChannels, this.sessions := chains, {}, sessions;
      pendingPlaintexts, nextOpkId, this.preKeys := map[], 1, preKeys;
    }

    /** `encrypt`: `None` is the empty envelope. `keyWanted` says that `key_request_fn` was called. */
    method Encrypt(recipient: Id, text: M, o: Outcome) returns (env: Option<ChatEnvelope<M>>, keyWanted: bool)
      requires Valid()
      modifies this`chains, this`sentSkdmChannels, this`pendingPlaintexts
      ensures Valid()
      ensures IsGroup(recipient) ==>
                (State(), env) == EncryptGroup(old(State()), recipient, text, o) && !keyWanted
                && pendingPlaintexts == old(pendingPlaintexts)
      ensures !IsGroup(recipient) ==>
                && State() == old(State())
                && (keyWanted <==> recipient !in sessions)
                && env == (if recipient in sessions && !o.encryptThrows then Some(Direct(recipient, text)) else None)
                && pendingPlaintexts == if keyWanted then old(pendingPlaintexts)[recipient := text]
                                        else old(pendingPlaintexts)
    {
      keyWanted := false;
      if recipient != [] && recipient[0] == '#' {
        var needSkdm := recipient !in sentSkdmChannels;
        if needSkdm {
          var skdm := State().Created(recipient, o);
          chains := chains[recipient := skdm];
          if o.createThrows { return None, false; }
          assert old(chains)[recipient := AfterTry(skdm, o)] == chains[recipient := AfterTry(skdm, o)];
          chains := chains[recipient := AfterTry(skdm, o)];
          if o.encryptThrows { return None, false; }
          sentSkdmChannels := sentSkdmChannels + {recipient};
          return Some(Group(recipient, Ciphertext(skdm, text), Some(skdm))), false;
        }
        var c := chains[recipient];
        chains := chains[recipient := AfterTry(c, o)];
        if o.encryptThrows { return None, false; }
        return Some(Group(recipient, Ciphertext(c, text), None)), false;
      }
      var hasSession := recipient in sessions;
      if !hasSession {
        pendingPlaintexts := pendingPlaintexts[recipient := text];
        return None, true;
      }
      if o.encryptThrows { return None, false; }
      env := Some(Direct(recipient, text));
    }

    /** `on_key_bundle`: the library either establishes a session or reports an error. */
    method OnKeyBundle(recipient: Id, established: bool)
      modifies this`sessions
      ensures sessions == if established then old(sessions) + {recipient} else old(sessions)
    {
      if established { sessions := sessions + {recipient}; }
    }

    /** `prepare_key_upload`, for the generated key material `keys`. */
    method PrepareKeyUpload(keys: seq<K>) returns (ids: seq<U32>)
      modifies this`nextOpkId, this`preKeys
      ensures ids == KeyIds(old(nextOpkId), |keys|) && nextOpkId == AfterUpload(old(nextOpkId), |keys|)
      ensures |keys| <= 0x1_0000_0000 ==> forall i | 0 <= i < |keys| :: ids[i] in preKeys && preKeys[ids[i]] == keys[i]
      ensures forall id | id in old(preKeys) && id !in ids :: id in preKeys && preKeys[id] == old(preKeys)[id]
    {
      ids := [];
      for i := 0 to |keys|
        invariant nextOpkId == old(nextOpkId) && ids == KeyIds(nextOpkId, i)
        invariant |keys| <= 0x1_0000_0000 ==> forall j | 0 <= j < i :: ids[j] in preKeys && preKeys[ids[j]] == keys[j]
        invariant forall id | id in old(preKeys) && id !in ids :: id in preKeys && preKeys[id] == old(preKeys)[id]
      {
        var id := (nextOpkId + i) % 0x1_0000_0000;
        assert |keys| <= 0x1_0000_0000 ==> id !in ids;
        ids := ids + [id];
        preKeys := preKeys[id := keys[i]];
      }
      nextOpkId := AfterUpload(nextOpkId, |keys|);
    }
  }
}
