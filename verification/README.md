# ircord-client in Dafny

A model of the stateful cores of the ircord terminal chat client, with proofs of what they keep over
every run. `dafny verify dfyconfig.toml` checks the whole project.

| file | part of the client |
|---|---|
| `Utf8.dfy` | the byte-level codec of the input editor, on 8- and 32-bit vectors with the source's masks and shifts |
| `TextLines.dfy`, `InputLine.dfy` | the editor: cursor, multi-line movement against a (row, column) model of the text, history |
| `Wrap.dfy` | the input area: the counting loop, the splitting loop and the drawing loop, against wrapping of code points |
| `JitterBuffer.dfy` | the reorder buffer for audio frames |
| `CryptoEngine.dfy`, `DirectMessages.dfy` | sender keys, sessions, and the queue of direct messages waiting for a key bundle |
| `NetClient.dfy` | framing, the writer on the strand, reconnect backoff |
| `Users.dfy`, `Channels.dfy`, `UiQueue.dfy` | the three independent parts of `AppState`, each with its own class |
| `ChannelNames.dfy`, `NamesResponse.dfy`, `Commands.dfy` | the part of `App` that joins, parts, and reads the server's answers |
| `TabOrder.dfy`, `Screens.dfy` | the part of `App` that opens, switches and cycles tabs, with the tasks posted to the interface |
| `FileTransfer.dfy` | the upload loop and the download handler |
| `Seqs.dfy`, `Ids.dfy` | shared definitions |

Objects of the client are classes whose methods state their whole new state. A method's new state is
given by a function on a value of the same fields (`Editor`, `Buffer`, `Dm`, `Link`, `Directory`, `Tabs`,
`Manager`, ...); lemmas about that function, and about runs of arbitrary length built from it, are the
properties. Handlers are atomic steps. A timer is an event that may happen at any moment; the results of
cryptographic calls are inputs.

## What turned out different from what one expects

- The comment in `from_utf8` says that `\n` is kept; the filter behind it drops it, as the unit tests
  expect. A line break exists in the buffer only through `insert`, and text that passes through `set_text`
  (tab completion) loses it: `Utf8.RoundTripIffClean`.
- In a terminal one column wide the counting loop is one row short of the splitting loop; at every other
  width they agree: `Wrap.LayoutInput`.
- A cursor at a soft wrap is drawn as a blank behind the full row, not on the character that begins the
  next one: `Wrap.IsCursorRow` takes the first row that ends at the cursor or later.
- `send` accepts an empty body, and the reader gives up on its frame: `NetClient.RecoveredIffNoneEmpty`.
- Frames that a broken connection left in the queue wait until something is posted on the next one:
  `NetClient.ParkedWithFramesIff`. A `/join` or `/part` among them is answered before the client is
  authenticated again, and its answer does nothing (`Commands.LeftoverJoinIsIgnored`); every answer on a new
  connection does what its user expects exactly when none was left over (`Commands.ReconnectIsCleanIff`). No
  answer ever acts on another command's target: `Commands.ResponsesFindTheirTarget`.
- The jitter buffer orders sequence numbers numerically. Across the wrap it can trim the only live frame
  (`JitterBuffer.PushLosesLiveIff`, `JitterBuffer.WrapLosesTheLiveFrame`), and sixteen late frames can silence
  it for the next 65519 slots (`JitterBuffer.FullBufferIsSilent`, `JitterBuffer.SilenceBehindTheWrap`). It can
  start at the later frame (`JitterBuffer.PrimingStartsRightIff`); the earlier one then sounds almost a whole
  epoch late, unless a push trims it before (`JitterBuffer.HeldFramePlaysIff`,
  `JitterBuffer.PrimingAcrossWrapSkips`). A buffer can start to play exactly when its target delay is at most
  16 frames (`JitterBuffer.TargetReachableIff`).
- A session made by an inbound message lets a new direct message overtake queued ones:
  `DirectMessages.OrderKeptIff`, `DirectMessages.InboundSessionOvertakes`.
- Filling a channel's user list from the online users does not copy the voice status:
  `Users.EnsureKeepsVoiceIff`.
- A chat message without recipient and sender, or a voice notice without a channel, makes a tab without a
  name. Exactly then can there be no active channel (`Screens.NoActiveIff`): a click on that tab leaves none
  (`Screens.UnnamedTabHidesActive`), while switching to it by number is undone by the notice of the switch
  (`Screens.SwitchToUnnamedIsUndone`).
- Cycling forward reaches every tab exactly when no tab is called like the server tab in other letters and an
  unnamed tab, if there is one, is the only other one: `Screens.CyclingReachesAllIff`, `Screens.AliasCutsOff`.
- A list of users comes through the answer to `/names` exactly when the channel's name has no ":" in front of a
  line break, no user's name has a line break, and no user without a role has a name that is empty or begins
  with a role's sign: `NamesResponse.NamesRoundTripIff`. An answer with a header line but shorter than
  "Users in " throws: `NamesResponse.ThrowsIff`.
- An empty file is uploaded as no chunk at all, so its download never completes: `FileTransfer.FileRoundTrip`.

## Model

| member | source | states |
|---|---|---|
| Utf8.FromUtf8 | src/ui/input_line.cpp:155-205 | the decoding loop computes `Decode`: complete sequences are filtered and appended, any other byte is skipped by itself |
| Utf8.ReadSequence | src/ui/input_line.cpp:160-195 | one turn recognises a sequence exactly when lead byte, remaining length and continuation bytes allow it, and then has its value |
| Utf8.ReadTail | src/ui/input_line.cpp:181-189 | the inner loop accepts exactly continuation bytes and shifts their six bits in |
| Utf8.ToUtf8 | src/ui/input_line.cpp:207-228 | the encoding loop computes the concatenated encodings, for any 32-bit values |
| Utf8.EncodedSequence | src/ui/input_line.cpp:159-228 | up to 0x1FFFFF the encoding of a code point is one complete sequence that the decoder reads back as that code point |
| Utf8.DecodePrefix | src/ui/input_line.cpp:155-228 | an encoded text in front of arbitrary bytes is read in full, up to the filter, before those bytes |
| Utf8.RoundTripIffClean | src/ui/input_line.cpp:155-228 | decoding undoes encoding exactly for the texts made of 32..0x1FFFFF without 127 |
| Utf8.DecodeIsClean | src/ui/input_line.cpp:197-201 | whatever the bytes, only such code points come out of the decoder |
| Utf8.DecodeEncodeDecode | src/ui/input_line.cpp:155-228 | decode, encode, decode equals decode on arbitrary bytes |
| Utf8.SelfSynchronising | src/ui/input_line.cpp:155-205 | a text may be cut before any byte that is not a continuation byte: the parts decode to the parts, even if the first ends inside a sequence |
| Utf8.CutSequenceVanishes | src/ui/input_line.cpp:155-205 | a sequence cut short between two texts contributes nothing and disturbs neither |
| Utf8.EncodeOneIsTheShortest | src/ui/input_line.cpp:207-228 | the encoding of a code point up to 0x1FFFFF is the one shortest complete sequence with its value |
| Utf8.EncodeDecodeIff | src/ui/input_line.cpp:155-228 | encoding undoes decoding for exactly the byte strings made of shortest sequences of clean code points |
| Utf8.BytesByRange | src/ui/input_line.cpp:163-184 | which byte values continue a sequence, and which announce how many bytes |
| Utf8.ValueByDigits | src/ui/input_line.cpp:164-188 | the value of a sequence: its bytes without their marks, six bits each |
| Utf8.CompleteIsRead | src/ui/input_line.cpp:155-205 | every complete sequence is read as its value, overlong or not, whatever follows |
| Utf8.StrayIsSkipped | src/ui/input_line.cpp:175-193 | a byte that no complete sequence begins with is skipped by itself |
| Utf8.FilterByCases | src/ui/input_line.cpp:197-201 | a tab becomes a blank, other controls vanish, the rest stays |
| InputLine.Find | src/ui/input_line.cpp:75 | the first occurrence from a position on, or none |
| InputLine.RFind | src/ui/input_line.cpp:54 | the last occurrence at or before a position, or none |
| InputLine.InputLine.constructor | src/ui/input_line.cpp:7-8 | an empty editor that is not browsing |
| InputLine.InputLine.Insert | src/ui/input_line.cpp:10-14 | the code point goes in at the cursor, browsing ends |
| InputLine.InputLine.InsertText | src/ui/input_line.cpp:16-24 | the decoded text goes in at the cursor; text that decodes to nothing changes nothing |
| InputLine.InputLine.Backspace | src/ui/input_line.cpp:26-30 | removes the code point before the cursor, if any |
| InputLine.InputLine.DelForward | src/ui/input_line.cpp:32-35 | removes the code point at the cursor, if any |
| InputLine.InputLine.MoveLeft | src/ui/input_line.cpp:37-39 | one to the left, not past the start |
| InputLine.InputLine.MoveRight | src/ui/input_line.cpp:41-43 | one to the right, not past the end |
| InputLine.InputLine.MoveHome | src/ui/input_line.cpp:45 | to the start of the buffer |
| InputLine.InputLine.MoveEnd | src/ui/input_line.cpp:46 | to the end of the buffer |
| InputLine.InputLine.MoveUp | src/ui/input_line.cpp:48-71 | the searches for separators put the cursor on the previous row of the (row, column) model; false exactly on the first row |
| InputLine.InputLine.MoveDown | src/ui/input_line.cpp:73-94 | the same for the next row; false exactly on the last row |
| InputLine.InputLine.HistoryPrev | src/ui/input_line.cpp:96-108 | shows the next older entry, saving the draft first; nothing behind the oldest |
| InputLine.InputLine.HistoryNext | src/ui/input_line.cpp:110-120 | shows the next newer entry, or the draft |
| InputLine.InputLine.Commit | src/ui/input_line.cpp:122-132 | returns the encoded line, puts a non-empty line in front of the bounded history, empties the buffer |
| InputLine.InputLine.SetText | src/ui/input_line.cpp:140-144 | the decoded text with the cursor at its end |
| InputLine.InputLine.CursorByteOffset | src/ui/input_line.cpp:149-153 | the offset splits the encoded text where the cursor splits the buffer |
| TextLines.AtOfPlace | src/ui/input_line.cpp:48-94 | cursor positions and (row, column) places correspond one to one |
| TextLines.JoinLines | src/ui/input_line.cpp:48-94 | the list of lines, joined by newlines, is the buffer |
| InputLine.UpMovesOneRow | src/ui/input_line.cpp:48-71 | up changes the row by one and the column to the smaller of itself and the length of the line above |
| InputLine.DownMovesOneRow | src/ui/input_line.cpp:73-94 | down does the same with the line below |
| InputLine.UpThenDown | src/ui/input_line.cpp:48-94 | up and then down returns exactly when the line above is long enough |
| InputLine.DownThenUp | src/ui/input_line.cpp:48-94 | down and then up returns exactly when the line below is long enough |
| InputLine.VerticalIff | src/ui/input_line.cpp:48-94 | up and down are possible exactly when a separator is in front of the cursor, or behind it; otherwise they change nothing |
| InputLine.EditsMeetAtCursor | src/ui/input_line.cpp:10-46 | in every run of edits and moves the buffer with its cursor is two texts, edited where they meet |
| InputLine.BackspaceUndoesPut | src/ui/input_line.cpp:10-30 | one backspace per inserted code point restores buffer and cursor |
| InputLine.HistoryRoundTrip | src/ui/input_line.cpp:96-120 | k steps back and k forward restore the draft with the cursor at its end |
| InputLine.PrevStopsAtOldest | src/ui/input_line.cpp:101-105 | further steps back than there are entries change nothing |
| InputLine.Run | src/ui/input_line.cpp:10-144 | in every run the cursor stays in the buffer, the browse position in [-1, size), the history within its bound and free of empty lines |
| InputLine.RunHoldsEncodable | src/ui/input_line.cpp:10-144 | every text in a reachable editor can be carried by four bytes per code point |
| InputLine.HistoryIsNewestCommitted | src/ui/input_line.cpp:122-127 | in every run the history is the newest `max_history` of all non-empty lines committed, newest first |
| InputLine.BackShowsCommitted | src/ui/input_line.cpp:96-108 | in every run that ends at the draft, the k-th step back shows the k-th newest committed line, cursor at its end |
| InputLine.ForthShowsCommitted | src/ui/input_line.cpp:96-120 | and j steps forward from there the newer ones, at last the draft |
| InputLine.RunBrowses | src/ui/input_line.cpp:10-144 | in every run the browse position and the saved draft are what the keys tell: text put in ends browsing, deleting and moving do not |
| InputLine.PrevShows | src/ui/input_line.cpp:96-108 | in every run, whatever was edited while browsing, a step back shows the next older committed line, if it is kept |
| InputLine.NextShows | src/ui/input_line.cpp:110-120 | and a step forward the next newer one, or the draft that browsing began with |
| Wrap.CountVisualLines | src/ui/ui_manager.cpp:492-507 | the byte loop counts the rows of the wrapped code points behind the prompt; one short at one column |
| Wrap.SplitVLines | src/ui/ui_manager.cpp:556-581 | the byte loop's ranges are, in code points, exactly the rows of the wrapped text, at code-point boundaries, with one newline left out at each hard break |
| Wrap.DrawCursorLine | src/ui/ui_manager.cpp:592-615 | the split at the cursor is before, one whole code point, after; or a blank at the end of the row |
| Wrap.DrawLines | src/ui/ui_manager.cpp:583-618 | the cursor is drawn on exactly one row, the first that ends at it or later; every other row is drawn as it is |
| Wrap.CursorAtSoftWrap | src/ui/ui_manager.cpp:589-615 | at a soft wrap the cursor is on the row in front of it, and on no other |
| Wrap.LayoutInput | src/ui/ui_manager.cpp:492-618 | both loops give the same number of rows exactly when the width is not one; the drawn rows are the wrapped text with the cursor in it |
| Wrap.BuildInput | src/ui/ui_manager.cpp:486-618 | the same for an editor object and a screen width; the height is the number of rows counted, but at least one and at most five |
| Wrap.RowsSnoc | src/ui/ui_manager.cpp:492-507 | the greedy step is right: one more code point extends the last row, or starts one when it is full or a newline comes |
| Wrap.WrapLineShape | src/ui/ui_manager.cpp:556-581 | a line takes as many rows as needed and no more; all but the last are full |
| Wrap.NoRowTooLong | src/ui/ui_manager.cpp:556-581 | no row has more code points than the terminal has columns |
| Wrap.TilesRebuild | src/ui/ui_manager.cpp:556-581 | the slices, with one newline at each hard break, concatenate to the text |
| JitterBuffer.SignedDiff | src/voice/jitter_buffer.cpp:14 | the 16-bit signed difference: in range and congruent |
| JitterBuffer.JitterBuffer.Trim | src/voice/jitter_buffer.cpp:20-23 | the loop leaves sixteen frames by removing the numerically first |
| JitterBuffer.JitterBuffer.Push | src/voice/jitter_buffer.cpp:9-30 | rejection outside the window, insertion, trimming and priming, for any state between calls |
| JitterBuffer.JitterBuffer.Pop | src/voice/jitter_buffer.cpp:32-47 | returns the frame of the next sequence number or nothing, and always advances once primed |
| JitterBuffer.JitterBuffer.Reset | src/voice/jitter_buffer.cpp:49-54 | empties the buffer and ends priming |
| JitterBuffer.RunStaysValid | src/voice/jitter_buffer.cpp:9-54 | in every run at most sixteen frames are held between calls |
| JitterBuffer.TargetReachableIff | src/voice/jitter_buffer.cpp:20-29 | some run of a buffer begins to play exactly when its target is at most the window |
| JitterBuffer.PrimesExactlyWhen | src/voice/jitter_buffer.cpp:18-29 | without a reset, a buffer with a target within the window begins to play exactly when that many different frames, and at least one, have come; until then it holds them all |
| JitterBuffer.WindowIs | src/voice/jitter_buffer.cpp:13-15 | accepted are the numbers from sixteen back to thirty-two ahead, modulo 65536 |
| JitterBuffer.PopsCountUp | src/voice/jitter_buffer.cpp:36-37 | after priming the sequence number is the start plus the number of pops, modulo 65536 |
| JitterBuffer.NthPop | src/voice/jitter_buffer.cpp:32-47 | the n-th pop returns nothing or the latest payload accepted for the n-th sequence number, across wraps |
| JitterBuffer.PayloadsConserved | src/voice/jitter_buffer.cpp:9-54 | in every run each pushed payload is exactly one of returned, overwritten, trimmed, rejected, cleared, still buffered |
| JitterBuffer.TrimTakesStale | src/voice/jitter_buffer.cpp:20-23 | within an epoch, with at most sixteen live frames, trimming takes a stale one |
| JitterBuffer.CalmRunRefines | src/voice/jitter_buffer.cpp:9-47 | within an epoch and with at most sixteen live frames the buffer plays exactly what an unbounded one plays |
| JitterBuffer.FramePlaysInItsSlot | src/voice/jitter_buffer.cpp:9-47 | in such a run a frame accepted before its slot is returned by the pop for its slot |
| JitterBuffer.HeldFramePlaysIff | src/voice/jitter_buffer.cpp:9-47 | a held frame that is not replaced is played in its slot, however far off, exactly when no push before that trims it |
| JitterBuffer.PushLosesLiveIff | src/voice/jitter_buffer.cpp:12-23 | a push loses a live frame exactly when there is one frame too many and the numerically first is live |
| JitterBuffer.PushIsLostIff | src/voice/jitter_buffer.cpp:18-23 | an accepted new frame is lost at once exactly when sixteen are held, all with higher numbers; then nothing changes |
| JitterBuffer.FullBufferIsSilent | src/voice/jitter_buffer.cpp:9-47 | in every run from a full buffer whose pushes are all numbered below what it holds, every pop up to the first held number returns nothing |
| JitterBuffer.WrapLosesTheLiveFrame | src/voice/jitter_buffer.cpp:9-23 | a run from a fresh buffer in which, across the wrap, the one live frame is the one that is trimmed |
| JitterBuffer.SilenceBehindTheWrap | src/voice/jitter_buffer.cpp:9-47 | that run goes on in silence for 65519 slots, whatever comes for them |
| JitterBuffer.PrimingStartsRightIff | src/voice/jitter_buffer.cpp:26-29 | of the frames held when priming ends exactly those less than half the range above the start are not before it by signed difference; that is all of them exactly when no two numbers are half the range apart |
| JitterBuffer.PrimedFramesPlay | src/voice/jitter_buffer.cpp:26-47 | when nothing more comes every frame held at priming is played, as many pops after the start as its number is above it |
| JitterBuffer.PrimingAcrossWrapSkips | src/voice/jitter_buffer.cpp:9-47 | a run from a fresh buffer that starts at the later of its two frames, and plays the earlier one 65535 pops later |
| CryptoEngine.CryptoEngine.Encrypt | src/crypto/crypto_engine.cpp:268-352 | both branches: group messages by sender key, direct messages by session, an empty envelope and a key request without one |
| CryptoEngine.SkdmExactlyOnFirst | src/crypto/crypto_engine.cpp:279-310 | in every run with arbitrary failures, before or after the chain has advanced, an envelope carries the distribution message exactly when it is the first of its channel |
| CryptoEngine.ReceiverDecryptsEverything | src/crypto/crypto_engine.cpp:279-388 | a receiver that processes one sender's envelopes in order decrypts every one |
| CryptoEngine.EnvelopesAreTheSuccessfulSends | src/crypto/crypto_engine.cpp:279-310 | those envelopes are the sends that did not throw, in order |
| CryptoEngine.LatecomerDecryptsNothing | src/crypto/crypto_engine.cpp:364-388 | a receiver without the chain decrypts nothing of a channel until an envelope brings it |
| CryptoEngine.ReplayIsRefused | src/crypto/crypto_engine.cpp:364-388 | a message that was decrypted, or an earlier one of its chain, is not decrypted again |
| CryptoEngine.CryptoEngine.PrepareKeyUpload | src/crypto/crypto_engine.cpp:224-248 | the uploaded ids, the stored keys and the advanced counter |
| CryptoEngine.UploadsCountOn | src/crypto/crypto_engine.cpp:230-246 | successive uploads number their keys without a gap, modulo 2^32 |
| CryptoEngine.NthId | src/crypto/crypto_engine.cpp:230-246 | the k-th id ever given out, over any uploads |
| CryptoEngine.IdsDistinctIff | src/crypto/crypto_engine.cpp:230-246 | no id is given out twice exactly as long as the 32-bit counter has not come round |
| DirectMessages.MessageHandler.RequestKey | src/net/message_handler.cpp:232-243 | the message is queued, and a key request goes out only when the entry is new |
| DirectMessages.MessageHandler.KeyTimeout | src/net/message_handler.cpp:245-255 | a timeout drops whatever entry there is and says how much |
| DirectMessages.MessageHandler.HandleKeyBundle | src/net/message_handler.cpp:173-230 | a bundle establishes the session or not, and the whole entry is sent or reported as failed |
| DirectMessages.MessageHandler.SendChat | src/app.cpp:661-674 | a message is sent, queued for a key, or lost |
| DirectMessages.EntriesNeverEmpty | src/net/message_handler.cpp:201-259 | in every run no pending entry is empty |
| DirectMessages.MessagesConserved | src/net/message_handler.cpp:201-259 | in every run, per peer, each submitted message is exactly one of sent, pending, failed, dropped |
| DirectMessages.RunIsSeen | src/net/message_handler.cpp:173-259 | in every run, per peer: which messages were sent, wait, were refused by the cipher and timed out, in which order, and what the user was told, are as the events for that peer alone tell |
| DirectMessages.NothingElseIsLost | src/net/message_handler.cpp:173-259 | a message that the cipher does not refuse and no timeout finds is on the wire or waits |
| DirectMessages.OneRequestPerEntry | src/net/message_handler.cpp:234-241 | in every run the key requests for a peer are its closed entries plus its open one |
| DirectMessages.WireOrderIsSubmissionOrder | src/net/message_handler.cpp:201-259 | per peer the wire order is the submission order as long as no message is sent while others are queued |
| DirectMessages.NoSessionWhileQueued | src/net/message_handler.cpp:201-210 | when sessions come only from key bundles no peer has a session and a queue at once |
| DirectMessages.BundleSessionsKeepOrder | src/net/message_handler.cpp:201-259 | then the wire order is always the submission order |
| DirectMessages.OvertakingReorders | src/net/message_handler.cpp:201-225 | conversely, a message sent past a queue is out of order once the queue is flushed |
| DirectMessages.OrderKeptIff | src/net/message_handler.cpp:201-259 | a message keeps the wire order over every later run in which nothing further overtakes, exactly when it overtakes nothing itself |
| DirectMessages.InboundSessionOvertakes | src/net/message_handler.cpp:201-225 | a run from the start in which that happens: the peer writes first while a message to it is waiting |
| NetClient.NetClient.Send | src/net/net_client.cpp:188-202 | a body of at most 65536 bytes is framed behind its big-endian size, a larger one is dropped |
| NetClient.ReadLoop | src/net/net_client.cpp:143-170 | the loop delivers the well-formed bodies of the parsed stream, and stops at an impossible size, at an incomplete frame, or after as many frames as had come when the client was stopped |
| NetClient.HeaderRoundTrip | src/net/net_client.cpp:149-200 | the reader assembles the size that the sender took apart |
| NetClient.HeaderIsBigEndian | src/net/net_client.cpp:195-200 | the header is the size to base 256, most significant byte first |
| NetClient.FramingRoundTrip | src/net/net_client.cpp:143-202 | any list of bodies of 1 to 65536 bytes is recovered |
| NetClient.RecoveredIffNoneEmpty | src/net/net_client.cpp:143-202 | of the lists that `send` lets through exactly those without an empty body are recovered |
| NetClient.ParseIsFaithful | src/net/net_client.cpp:143-170 | the recovered bodies, framed again, and the left-over bytes are the stream, whatever the stream |
| NetClient.ParseInPortions | src/net/net_client.cpp:147-160 | bytes may arrive in any portions |
| NetClient.PrefixOfStream | src/net/net_client.cpp:143-170 | on a prefix of the bytes the reader has a prefix of the bodies and the beginning of a frame |
| NetClient.NetClient.OnPosted | src/net/net_client.cpp:204-207 | the posted part of `send` queues the frame and wakes a parked writer |
| NetClient.NetClient.DrainQueue | src/net/net_client.cpp:173-184 | the writer takes the next frame, parks, or ends |
| NetClient.NetClient.OnBegin | src/net/net_client.cpp:172-177 | the writer arms its wait without looking at the queue |
| NetClient.NetClient.OnWake | src/net/net_client.cpp:177-184 | a woken writer goes on to the queue |
| NetClient.NetClient.OnWritten | src/net/net_client.cpp:180-184 | after a write the writer goes on; a failed write ends the connection |
| NetClient.NetClient.OnReadFailed | src/net/net_client.cpp:135-184 | a waiting writer that is cancelled takes one more frame and ends |
| NetClient.NetClient.OnConnected | src/net/net_client.cpp:129-139 | a new connection resets the backoff and begins with the frames still queued |
| NetClient.WriterIsFifo | src/net/net_client.cpp:172-207 | at every moment the frames taken, then the queue, are the left-overs and everything posted, in order |
| NetClient.FifoAcrossConnections | src/net/net_client.cpp:137-207 | over any number of connections each posted frame is taken off the queue at most once and in order, and the others are still queued |
| NetClient.TakenIsWritten | src/net/net_client.cpp:172-184 | however a connection ends, the frames it wrote are the frames it took, but for at most the last one |
| NetClient.ParkedWithFramesIff | src/net/net_client.cpp:172-207 | a parked writer has frames in its queue exactly when the connection began with some and nothing was posted since it first armed |
| NetClient.WriterEmptiesQueue | src/net/net_client.cpp:179-184 | left alone, a writing writer writes the whole queue in order and parks, or ends if the client is stopping |
| NetClient.WokenWriterWrites | src/net/net_client.cpp:172-184 | so does a woken writer, in every reachable state |
| NetClient.PostedIsWritten | src/net/net_client.cpp:172-207 | once something was posted after the writer armed, a writer that is left alone writes everything the connection began with and everything posted |
| NetClient.EndsWhen | src/net/net_client.cpp:135-184 | a failed write or read ends the writer; a stopped client ends it in its first turn, another one arms the wait |
| NetClient.EndedIsFinal | src/net/net_client.cpp:172-207 | from then on nothing is taken, and what is posted stays in the queue |
| NetClient.NetClient.AwaitReconnect | src/net/net_client.cpp:81-98 | waits the delay, and doubles it up to a minute |
| NetClient.BackoffAfter | src/net/net_client.cpp:81-98 | the closed form of delay, attempt number and waited time |
| NetClient.BackoffDependsOnLosses | src/net/net_client.cpp:81-133 | in every history the backoff depends only on the losses since the last handshake, and stays in 1..60 |
| Users.UserDirectory.SetPresence | src/state/app_state.cpp:124-134 | the loop updates the global presence and every channel's copy, and nothing else |
| Users.UserDirectory.SetUserVoiceStatus | src/state/app_state.cpp:257-267 | the same for the voice status |
| Users.UserDirectory.SetChannelUsers | src/state/app_state.cpp:154-172 | the channel's list is replaced by the given users as known globally, later entries winning |
| Users.UserDirectory.AddChannelUser | src/state/app_state.cpp:174-188 | the user is stored as known globally |
| Users.UserDirectory.RemoveChannelUser | src/state/app_state.cpp:190-196 | only that user leaves that channel's list |
| Users.UserDirectory.SetUserRole | src/state/app_state.cpp:198-207 | only that entry's role changes |
| Users.UserDirectory.ChannelUser | src/state/app_state.cpp:226-237 | the entry, if there is one |
| Users.UserDirectory.EnsureChannelUsersFromOnline | src/state/app_state.cpp:239-255 | a channel without a list gets the users that are not offline |
| Users.PresenceAlwaysCoherent | src/state/app_state.cpp:124-267 | in every run an entry is stored under its own id and shows the global presence of a known user |
| Users.EnsureKeepsVoiceIff | src/state/app_state.cpp:239-255 | filling from the online users keeps the voice status right exactly when the list exists or nobody online is muted or talking |
| Users.VoiceCoherentUnlessFilled | src/state/app_state.cpp:154-267 | in every run whose fills are of that kind entries show the global voice status |
| Users.ListReplacesExactly | src/state/app_state.cpp:154-172 | a list shows of each user the last entry given, with what is known globally, and of others nothing; nothing else changes |
| Users.DirectoryIsTold | src/state/app_state.cpp:124-267 | in every run of all mutators, what is known of each user, which channels have a list, and what each list shows of each user are what the history tells |
| Channels.ChannelTabs.PushMessage | src/state/app_state.cpp:31-42 | the message is appended, the log bounded, the unread count raised for an inactive or scrolled channel |
| Channels.ChannelTabs.RemoveChannel | src/state/app_state.cpp:78-87 | the active channel falls back to the server tab, else to any other, else to none |
| Channels.ChannelTabs.SetActiveChannel | src/state/app_state.cpp:50-56 | the channel becomes active, and read if it exists |
| Channels.ApplyIsLocal | src/state/app_state.cpp:25-114 | a change leaves the log and the unread count of every other channel alone |
| Channels.LogIsLatestPushed | src/state/app_state.cpp:25-114 | in every run a log is the last thousand messages pushed since the channel was created, and the unread count the number of missed ones |
| Channels.TabsAreTold | src/state/app_state.cpp:25-114 | in every run the channels that are there, their scroll offsets and the active channel are what the history tells |
| UiQueue.UiQueue.DrainUiQueue | src/state/app_state.cpp:14-21 | a drain runs exactly the tasks queued before it; what they post waits |
| UiQueue.RunOrderIsPostOrder | src/state/app_state.cpp:9-21 | in every run the tasks that have run, then those waiting, are all that were posted, in order |
| UiQueue.DrainsUntilEmpty | src/state/app_state.cpp:9-21 | re-entrant posting ends after exactly as many drains as tasks nest |
| ChannelNames.IsServerChannel | src/app.cpp:25-38 | compares without regard to case |
| ChannelNames.TrimAsciiWhitespace | src/app.cpp:47-59 | white space is removed at both ends and nowhere else |
| ChannelNames.TrimmedIsUnique | src/app.cpp:47-59 | that determines the result |
| ChannelNames.SanitizeChannelName | src/app.cpp:65-90 | the reserved tab, a valid name with its '#', or nothing |
| ChannelNames.SanitizedIsStable | src/app.cpp:65-90 | sanitising is idempotent |
| ChannelNames.SanitizedIff | src/app.cpp:65-90 | a trimmed name stands for a channel exactly as it is or with the '#' that it lacks, the reserved name in any case for the server tab, and nothing else for anything |
| ChannelNames.ServerInAnyCase | src/app.cpp:25-38 | the reserved name, letter by letter |
| Commands.PendingCommands.RequestJoin | src/app.cpp:493-537 | a join is queued and sent unless not authenticated, invalid, reserved or pending |
| Commands.PendingCommands.RequestPart | src/app.cpp:500-516 | a part is queued and sent unless not authenticated, for the server tab or pending |
| Commands.AsciiLowerCopy | src/app.cpp:92-97 | the loop lowers every letter of the text |
| Commands.PendingCommands.HandleResponse | src/app.cpp:745-831 | for the command it names in any case, a response takes the front of its queue and acts on it if it reports success; an answer to `/names` lists users |
| Commands.JoinIsSentIff | src/app.cpp:493-537 | exactly when which join is sent, and that otherwise nothing changes |
| Commands.PartIsSentIff | src/app.cpp:493-516 | the same for part |
| Commands.AuthenticatedIff | src/net/message_handler.cpp:38-78 | the client is authenticated exactly when a response to this connection's challenge has been accepted |
| Commands.QueuesMatchUnanswered | src/app.cpp:494-537 | in every run over any connections, whatever is left over: while authenticated the queues are the targets of the unanswered requests, without duplicates; otherwise they are empty |
| Commands.ResponsesFindTheirTarget | src/app.cpp:758-831 | in every run a response acts on the target of its own request, or on nothing if the request was left over |
| Commands.ReconnectIsCleanIff | src/app.cpp:273-290 | every response on a new connection does what its user expects exactly when no join and no part was left over for it |
| Commands.LeftoverJoinIsIgnored | src/app.cpp:285-290 | a run from the start in which a join is left over and its success opens no tab |
| Commands.ActionsNameChannels | src/app.cpp:500-537 | in every run responses open only channel tabs and never close the server tab |
| NamesResponse.ReadUsers | src/app.cpp:787-804 | the line loop gives one entry per line that is not empty, with the role of its prefix |
| NamesResponse.ParseNames | src/app.cpp:778-804 | the channel between the fixed words and the first ":" at the end of a line, and the users behind it |
| NamesResponse.NextLine | src/app.cpp:787-804 | a line and what follows it are read one after the other |
| NamesResponse.LastLine | src/app.cpp:787-804 | a last line counts without a line break behind it |
| NamesResponse.EarlyHeader | src/app.cpp:781-787 | if the header ends before the name would begin, everything behind the fixed words is the name |
| NamesResponse.ThrowsIff | src/app.cpp:781-785 | it throws exactly for a text with a header line that is shorter than nine characters |
| NamesResponse.NamesRoundTripIff | src/app.cpp:778-804 | a channel and its users come back out of the text exactly when the names are legible |
| TabOrder.ChannelList | src/state/app_state.cpp:58-69 | the keys, the server tab first and the rest in ascending order |
| TabOrder.TabListIsUnique | src/state/app_state.cpp:58-69 | that determines the list, although the map is unordered |
| TabOrder.LessIff | src/state/app_state.cpp:63-67 | the order of names: the first difference decides, a proper prefix comes first |
| TabOrder.CycleLeadsTo | src/app.cpp:844-865 | a step leads to the neighbour in the list, or to the server tab if the neighbour is named like it in other letters, and changes no tab |
| TabOrder.CycleBackAndForth | src/app.cpp:844-865 | exactly when a step and its reverse return to the same tab, for every tab list |
| TabOrder.CycleFollowsListIff | src/app.cpp:844-865 | on every tab list, k steps forward, up to once around, follow the list exactly if none of them goes on from a tab without a name or leads to one named like the server tab in other letters |
| Screens.App.SwitchToChannel | src/app.cpp:860-865 | the tab is opened and active, and a notice for the then active tab is posted |
| Screens.App.SwitchToChannelByIndex | src/app.cpp:854-858 | the same for a number in the list, if there is such a tab |
| Screens.App.SwitchChannel | src/app.cpp:844-852 | the tab so many places on, around either end, is switched to; a step of one is the neighbour |
| Screens.App.HandleClick | src/ui/ui_manager.cpp:174-184 | a click makes a tab active and read, and posts nothing |
| Screens.App.HandleChat | src/net/message_handler.cpp:135-170 | the recipient's tab, or the sender's, is opened at once and the message posted |
| Screens.App.SendChat | src/app.cpp:619-647 | a message goes to the active tab, or a refusal is posted, to the server tab if the client is not authenticated |
| Screens.App.Perform | src/app.cpp:768-828 | what a posted task does to the tabs |
| Screens.App.DrainUiQueue | src/state/app_state.cpp:14-21 | one drain runs the waiting tasks one by one, in order, and leaves none |
| Screens.TaskDoes | src/app.cpp:768-828 | which tabs are open, which is active and what is in each log after each kind of task |
| Screens.EventDoes | src/app.cpp:537-647 | the same after incoming chat, `/msg`, `/me` and a click, with the tasks posted |
| Screens.SwitchDoes | src/app.cpp:844-865 | the same after switching by number and by cycling |
| Screens.ActiveTabAlwaysOpen | src/app.cpp:537-865 | in every run of the application the server tab exists, is first, and the active channel is one of the tabs |
| Screens.ActiveNeverEmpty | src/app.cpp:537-865 | there is always an active channel as long as no event names the empty channel |
| Screens.NoActiveIff | src/net/message_handler.cpp:135-170 | from a reachable state, events that do not name the empty channel can leave no active channel exactly when a tab without a name is there or a message for one is waiting |
| Screens.UnnamedTabHidesActive | src/ui/ui_manager.cpp:174-184 | a run from the start: a click on such a tab leaves no active channel, with nothing waiting |
| Screens.SwitchToUnnamedIsUndone | src/app.cpp:860-865 | switching to it by number is undone by the notice of the switch |
| Screens.CyclingReachesAllIff | src/app.cpp:844-865 | with drains at any moments, cycling forward from the server tab reaches every tab exactly when no tab is named like it in other letters and an unnamed tab, if any, is the only other one |
| Screens.AliasCutsOff | src/net/message_handler.cpp:135-138 | a run from the start that opens a tab that cycling does not reach |
| FileTransfer.DoUpload | src/file/file_transfer.cpp:310-343 | the loop sends the chunks of the file up to the first turn in which it is cancelled or shut down |
| FileTransfer.SplitJoins | src/file/file_transfer.cpp:325-334 | the chunks are together the file |
| FileTransfer.SplitCount | src/file/file_transfer.cpp:314-342 | there are as many chunks as needed and no more, none for an empty file |
| FileTransfer.SplitMarks | src/file/file_transfer.cpp:330-334 | number, content and mark of each chunk, also when the file is not of the size noted |
| FileTransfer.OnlyFinalMarked | src/file/file_transfer.cpp:330 | of an unchanged file only the final chunk is marked last |
| FileTransfer.FileTransferManager.Download | src/file/file_transfer.cpp:85-127 | the records of a download |
| FileTransfer.FileTransferManager.OnFileChunk | src/file/file_transfer.cpp:179-211 | a chunk is appended to the target and counted; the last one completes; unknown or cancelled transfers ignore it |
| FileTransfer.DownloadGetsItsChunks | src/file/file_transfer.cpp:179-211 | however chunks of several files are mixed, each download gets its own, in order, and completes exactly at a marked one |
| FileTransfer.DeliveriesAreTold | src/file/file_transfer.cpp:179-211 | in every run of deliveries, some of which cannot be written, a download has exactly the bytes that could be, counts them, and is in the state its own chunks leave it |
| FileTransfer.IgnoredChunk | src/file/file_transfer.cpp:179-189 | a chunk of an unknown or cancelled transfer changes nothing |
| FileTransfer.CancelledGetsNothing | src/file/file_transfer.cpp:188-189 | nothing is added to a cancelled download |
| FileTransfer.FileRoundTrip | src/file/file_transfer.cpp:179-343 | an unchanged file is rebuilt and counted, and its download completes exactly if it is not empty |
| FileTransfer.NotCompleteBefore | src/file/file_transfer.cpp:206-210 | a download is not complete before its final chunk |

## Left out

- Wrap.BuildInput: code points above 0x1FFFFF, which `insert` would take but no key event produces.
- DirectMessages.MessageHandler.KeyTimeout: wall-clock time and data races on the queue; the timer is not tied to a particular entry, so no minimum wait is stated.
- CryptoEngine.ReceiverDecryptsEverything: the library's limits on skipped messages and remembered chains; a chain is a key and a counter.
- CryptoEngine.CryptoEngine.PrepareKeyUpload: key generation, and the counter starting again at 1 after a restart.
- NetClient.ReadLoop: TLS and sockets; protobuf parsing is a predicate on bodies.
- Screens.App.SwitchChannel: steps back by more than the number of tabs and the place in the list, for which the remainder is negative; no caller makes them.
- Screens.App.SendChat: storing the message, encryption and link previews; `DirectMessages` has the sending.
- Commands.PendingCommands.HandleResponse: the notices it logs. A server that answers out of order, or accepts a signature over the challenge of an earlier connection.
- FileTransfer.DoUpload: a file that cannot be opened, and the progress fraction in floating point.
- The sequence numbers and time stamps of envelopes; the handlers for pings, errors and voice signals, which only pass a message on.
- The copies that `online_users` and `channel_users` sort by role and name; the voice snapshot, the connection flag and the search results, which `AppState` stores and returns as they are.
- Locks: every locked section is one step. Integer overflow of counters other than sequence numbers, chunk indices and pre-key ids.
- Iteration order of unordered maps: loops over them take any key next.
- libsignal, libsodium, OpenSSL, Opus, WebRTC, SQLite, FTXUI rendering, configuration files, link previews, command tokenising and tab completion.
