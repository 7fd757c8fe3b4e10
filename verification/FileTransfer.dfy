/** File chunking in `FileTransferManager`: the upload loop that cuts a file into chunks, and the handler
    that appends arriving chunks to the downloaded file. */
module FileTransfer {
  import opened Ids
  import opened Seqs

  const CHUNK_SIZE := 65536

  datatype Chunk<T> = Chunk(index: nat, data: seq<T>, isLast: bool)

  // ---------------------------------------------------------------------------------------------
  // Upload
  // ---------------------------------------------------------------------------------------------

  /** The chunks of `file` from `from` on. A chunk is marked last if it is short or reaches the size that
      was noted when the upload was requested. */
  function Split<T>(file: seq<T>, from: nat, index: nat, notedSize: nat): seq<Chunk<T>>
    decreases |file| - from
  {
    if from >= |file| then []
    else
      var end := Min(from + CHUNK_SIZE, |file|);
      [Chunk(index % 0x1_0000_0000, file[from..end], end - from < CHUNK_SIZE || end >= notedSize)]
      + Split(file, end, index + 1, notedSize)
  }

  /** The loop of `do_upload`. `stops` says in which turns a cancellation or the shutdown is seen. */
  method DoUpload<T>(file: seq<T>, notedSize: nat, stops: nat -> bool) returns (sent: seq<Chunk<T>>)
    ensures sent <= Split(file, 0, 0, notedSize)
    ensures forall k | 0 <= k < |sent| :: !stops(k)
    ensures sent != Split(file, 0, 0, notedSize) ==> stops(|sent|)
  {
    sent := [];
    var totalSent := 0;
    var chunkIndex := 0;
    var good := true;
    while good && !stops(chunkIndex)
      invariant totalSent <= |file| && (!good ==> totalSent == |file|)
      invariant chunkIndex == |sent| && forall k | 0 <= k < |sent| :: !stops(k)
      invariant Split(file, 0, 0, notedSize) == sent + Split(file, totalSent, chunkIndex, notedSize)
      decreases |file| - totalSent, good
    {
      var bytesRead := Min(CHUNK_SIZE, |file| - totalSent);
      good := bytesRead == CHUNK_SIZE;
      if bytesRead == 0 { break; }
      var data := file[totalSent..totalSent + bytesRead];
      var isLast := bytesRead < CHUNK_SIZE || totalSent + bytesRead >= notedSize;
      var chunk := Chunk(chunkIndex % 0x1_0000_0000, data, isLast);
      Reassociate(sent, [chunk], Split(file, totalSent + bytesRead, chunkIndex + 1, notedSize));
      sent := sent + [chunk];
      chunkIndex := chunkIndex + 1;
      totalSent := totalSent + bytesRead;
    }
  }

  function Joined<T>(chunks: seq<Chunk<T>>): seq<T> {
    FlatMap((c: Chunk<T>) => c.data, chunks)
  }

  /** The chunks of a file are together the file. */
  lemma {:induction false} SplitJoins<T>(file: seq<T>, from: nat, index: nat, notedSize: nat)
    requires from <= |file|
    ensures Joined(Split(file, from, index, notedSize)) == file[from..]
    decreases |file| - from
  {
    if from < |file| {
      var end := Min(from + CHUNK_SIZE, |file|);
      SplitJoins(file, end, index + 1, notedSize);
      assert file[from..] == file[from..end] + file[end..];
    }
  }

  /** There are as many as needed and no more: all but the final one are full. */
  lemma {:induction false} SplitCount<T>(file: seq<T>, from: nat, index: nat, notedSize: nat)
    requires from <= |file|
    ensures var n := |Split(file, from, index, notedSize)|;
            n * 65536 >= |file| - from && (from < |file| ==> (n - 1) * 65536 < |file| - from)
    ensures from < |file| <==> Split(file, from, index, notedSize) != []
    decreases |file| - from
  {
    if from < |file| { SplitCount(file, Min(from + CHUNK_SIZE, |file|), index + 1, notedSize); }
  }

  /** They are numbered in order; chunk `k` is marked last exactly if it is the final one and short, or
      reaches the noted size. */
  lemma {:induction false} SplitMarks<T>(file: seq<T>, from: nat, index: nat, notedSize: nat, k: nat)
    requires from <= |file| && k < |Split(file, from, index, notedSize)|
    ensures var c := Split(file, from, index, notedSize)[k]; var end := Min(from + (k + 1) * 65536, |file|);
            && c.index == (index + k) % 0x1_0000_0000
            && from + k * 65536 < end && c.data == file[from + k * 65536..end]
            && (c.isLast <==> end < from + (k + 1) * 65536 || end >= notedSize)
    decreases |file| - from
  {
    if k > 0 { SplitMarks(file, Min(from + CHUNK_SIZE, |file|), index + 1, notedSize, k - 1); }
  }

  /** Of an unchanged file only the final chunk is marked last. */
  lemma OnlyFinalMarked<T>(file: seq<T>, k: nat)
    requires k < |Split(file, 0, 0, |file|)|
    ensures Split(file, 0, 0, |file|)[k].isLast <==> k == |Split(file, 0, 0, |file|)| - 1
  {
    SplitMarks(file, 0, 0, |file|, k);
    SplitCount(file, 0, 0, |file|);
  }

  // ---------------------------------------------------------------------------------------------
  // Download
  // ---------------------------------------------------------------------------------------------

  datatype TransferState = Pending | Uploading | Downloading | Completed | Failed | Cancelled

  datatype Transfer = Transfer(path: Id, transferred: nat, state: TransferState)

  /** The records of the manager, and the files they append to. */
  datatype Manager<T> = Manager(transfers: map<Id, Transfer>, byFileId: map<Id, Id>, disk: map<Id, seq<T>>)
  {
    function Content(path: Id): seq<T> { if path in disk then disk[path] else [] }
  }

  function Received<T>(m: Manager<T>, fileId: Id, c: Chunk<T>, opens: bool): Manager<T> {
    if fileId !in m.byFileId || m.byFileId[fileId] !in m.transfers then m
    else
      var id := m.byFileId[fileId];
      var t := m.transfers[id];
      if t.state.Cancelled? then m
      else if !opens then m.(transfers := m.transfers[id := t.(state := Failed)])
      else
        Manager(
          m.transfers[id := Transfer(t.path, t.transferred + |c.data|, if c.isLast then Completed else t.state)],
          m.byFileId, m.disk[t.path := m.Content(t.path) + c.data])
  }

  class FileTransferManager<T> {
    var transfers: map<Id, Transfer>
    var fileIdToTransfer: map<Id, Id>
    var disk: map<Id, seq<T>>

    function State(): Manager<T>
      reads this
    {
      Manager(transfers, fileIdToTransfer, disk)
    }

    constructor (disk: map<Id, seq<T>>)
      ensures State() == Manager(map[], map[], disk)
    {
      transfers, fileIdToTransfer, this.disk := map[], map[], disk;
    }

    /** The records of a download; the request itself needs a send function. */
    method Download(transferId: Id, fileId: Id, localPath: Id, canSend: bool)
      modifies this
      ensures State() == Manager(
                old(transfers)[transferId := Transfer(localPath, 0, if canSend then Downloading else Failed)],
                old(fileIdToTransfer)[fileId := transferId], old(disk))
    {
      var info := Transfer(localPath, 0, Pending);
      transfers := transfers[transferId := info];
      fileIdToTransfer := fileIdToTransfer[fileId := transferId];
      info := info.(state := if canSend then Downloading else Failed);
      assert old(transfers)[transferId := info] == transfers[transferId := info];
      transfers := transfers[transferId := info];
    }

    method Cancel(transferId: Id)
      modifies this`transfers
      ensures transfers == if transferId in old(transfers)
                           then old(transfers)[transferId := old(transfers)[transferId].(state := Cancelled)]
                           else old(transfers)
    {
      if transferId in transfers {
        transfers := transfers[transferId := transfers[transferId].(state := Cancelled)];
      }
    }

    /** `on_file_chunk`: appends in order of arrival, whatever the index says. */
    method OnFileChunk(fileId: Id, chunk: Chunk<T>, opens: bool)
      modifies this
      ensures State() == Received(old(State()), fileId, chunk, opens)
    {
      if fileId !in fileIdToTransfer { return; }
      var id := fileIdToTransfer[fileId];
      if id !in transfers { return; }
      var info := transfers[id];
      if info.state.Cancelled? { return; }
      if !opens {
        transfers := transfers[id := info.(state := Failed)];
        return;
      }
      disk := disk[info.path := (if info.path in disk then disk[info.path] else []) + chunk.data];
      info := info.(transferred := info.transferred + |chunk.data|);
      if chunk.isLast { info := info.(state := Completed); }
      transfers := transfers[id := info];
    }
  }

  // ---------------------------------------------------------------------------------------------
  // Any interleaving of downloads
  // ---------------------------------------------------------------------------------------------

  datatype Arrival<T> = Arrival(fileId: Id, chunk: Chunk<T>)

  function ReceivedAll<T>(m: Manager<T>, xs: seq<Arrival<T>>): Manager<T> {
    if xs == [] then m
    else
      var x := xs[|xs| - 1];
      Received(ReceivedAll(m, xs[..|xs| - 1]), x.fileId, x.chunk, true)
  }

  /** The chunks of one file, in order of arrival. */
  function ChunksOf<T>(xs: seq<Arrival<T>>, fileId: Id): seq<Chunk<T>> {
    if xs == [] then []
    else
      var x := xs[|xs| - 1];
      ChunksOf(xs[..|xs| - 1], fileId) + if x.fileId == fileId then [x.chunk] else []
  }

  /** The file is being downloaded, to a path that no other download writes. */
  ghost predicate HasOwnPath<T>(m: Manager<T>, fileId: Id) {
    && fileId in m.byFileId && m.byFileId[fileId] in m.transfers
    && (forall f | f in m.byFileId && f != fileId && m.byFileId[f] in m.transfers ::
          m.byFileId[f] != m.byFileId[fileId]
          && m.transfers[m.byFileId[f]].path != m.transfers[m.byFileId[fileId]].path)
  }

  function TransferOf<T>(m: Manager<T>, fileId: Id): Transfer
    requires fileId in m.byFileId && m.byFileId[fileId] in m.transfers
  {
    m.transfers[m.byFileId[fileId]]
  }

  lemma ReceivedElsewhere<T>(m: Manager<T>, f: Id, c: Chunk<T>, fileId: Id)
    requires HasOwnPath(m, fileId) && f != fileId
    ensures var r := Received(m, f, c, true);
            HasOwnPath(r, fileId) && TransferOf(r, fileId) == TransferOf(m, fileId)
            && r.Content(TransferOf(m, fileId).path) == m.Content(TransferOf(m, fileId).path)
  {
  }

  lemma ReceivedHere<T>(m: Manager<T>, fileId: Id, c: Chunk<T>)
    requires HasOwnPath(m, fileId) && !TransferOf(m, fileId).state.Cancelled?
    ensures var t := TransferOf(m, fileId); var r := Received(m, fileId, c, true);
            && HasOwnPath(r, fileId)
            && TransferOf(r, fileId)
               == Transfer(t.path, t.transferred + |c.data|, if c.isLast then Completed else t.state)
            && r.Content(t.path) == m.Content(t.path) + c.data
  {
  }

  lemma ChunksSnoc<T>(cs: seq<Chunk<T>>, c: Chunk<T>)
    ensures Joined(cs + [c]) == Joined(cs) + c.data
    ensures (exists k :: 0 <= k < |cs + [c]| && (cs + [c])[k].isLast)
            <==> c.isLast || exists k :: 0 <= k < |cs| && cs[k].isLast
  {
    FlatMapSnoc((c: Chunk<T>) => c.data, cs, c);
    if c.isLast { assert (cs + [c])[|cs|].isLast; }
    if k :| 0 <= k < |cs| && cs[k].isLast { assert (cs + [c])[k].isLast; }
  }

  /** However the chunks of different files are mixed, a download gets exactly its own chunks, in order of
      arrival, and is complete exactly when one of them was marked last. */
  lemma {:induction false} DownloadGetsItsChunks<T>(m: Manager<T>, xs: seq<Arrival<T>>, fileId: Id)
    requires HasOwnPath(m, fileId) && TransferOf(m, fileId).state == Downloading
    ensures var t := TransferOf(m, fileId); var r := ReceivedAll(m, xs); var cs := ChunksOf(xs, fileId);
            && HasOwnPath(r, fileId)
            && TransferOf(r, fileId).path == t.path
            && TransferOf(r, fileId).transferred == t.transferred + |Joined(cs)|
            && TransferOf(r, fileId).state
               == (if exists k :: 0 <= k < |cs| && cs[k].isLast then Completed else Downloading)
            && r.Content(t.path) == m.Content(t.path) + Joined(cs)
  {
    hide Received, HasOwnPath;
    if xs != [] {
      var init, x := xs[..|xs| - 1], xs[|xs| - 1];
      DownloadGetsItsChunks(m, init, fileId);
      var before := ReceivedAll(m, init);
      if x.fileId == fileId {
        ReceivedHere(before, fileId, x.chunk);
        ChunksSnoc(ChunksOf(init, fileId), x.chunk);
      } else {
        ReceivedElsewhere(before, x.fileId, x.chunk, fileId);
        assert ChunksOf(xs, fileId) == ChunksOf(init, fileId);
      }
    }
  }

  /** File round trip: chunks of an unchanged file, arriving in order and mixed with any others, rebuild
      it in an empty target. The download completes exactly if the file is not empty. */
  lemma FileRoundTrip<T>(m: Manager<T>, xs: seq<Arrival<T>>, fileId: Id, file: seq<T>)
    requires HasOwnPath(m, fileId) && TransferOf(m, fileId).state == Downloading
    requires TransferOf(m, fileId).transferred == 0 && m.Content(TransferOf(m, fileId).path) == []
    requires ChunksOf(xs, fileId) == Split(file, 0, 0, |file|)
    ensures var r := ReceivedAll(m, xs);
            && HasOwnPath(r, fileId)
            && r.Content(TransferOf(m, fileId).path) == file && TransferOf(r, fileId).transferred == |file|
            && (TransferOf(r, fileId).state == Completed <==> file != [])
  {
    DownloadGetsItsChunks(m, xs, fileId);
    SplitJoins(file, 0, 0, |file|);
    SplitCount(file, 0, 0, |file|);
    assert file[0..] == file;
    var cs := Split(file, 0, 0, |file|);
    if file != [] { OnlyFinalMarked(file, |cs| - 1); }
  }

  /** Before its final chunk arrives, a download is not complete. */
  lemma NotCompleteBefore<T>(m: Manager<T>, xs: seq<Arrival<T>>, fileId: Id, file: seq<T>)
    requires HasOwnPath(m, fileId) && TransferOf(m, fileId).state == Downloading
    requires ChunksOf(xs, fileId) < Split(file, 0, 0, |file|)
    ensures HasOwnPath(ReceivedAll(m, xs), fileId)
    ensures TransferOf(ReceivedAll(m, xs), fileId).state == Downloading
  {
    DownloadGetsItsChunks(m, xs, fileId);
    hide ChunksOf, Split, ReceivedAll, HasOwnPath;
    var cs, all := ChunksOf(xs, fileId), Split(file, 0, 0, |file|);
    forall k | 0 <= k < |cs|
      ensures !cs[k].isLast
    {
      assert cs[k] == all[k];
      OnlyFinalMarked(file, k);
    }
  }

  /** Nothing is added to a cancelled download, whatever still arrives. */
  lemma {:induction false} CancelledGetsNothing<T>(m: Manager<T>, xs: seq<Arrival<T>>, fileId: Id)
    requires HasOwnPath(m, fileId) && TransferOf(m, fileId).state.Cancelled?
    ensures var r := ReceivedAll(m, xs);
            && HasOwnPath(r, fileId) && TransferOf(r, fileId) == TransferOf(m, fileId)
            && r.Content(TransferOf(m, fileId).path) == m.Content(TransferOf(m, fileId).path)
  {
    if xs != [] {
      var init, x := xs[..|xs| - 1], xs[|xs| - 1];
      CancelledGetsNothing(m, init, fileId);
      if x.fileId != fileId { ReceivedElsewhere(ReceivedAll(m, init), x.fileId, x.chunk, fileId); }
    }
  }

  // ---------------------------------------------------------------------------------------------
  // Chunks that cannot be written
  // ---------------------------------------------------------------------------------------------

  /** `opens`: the target could be opened when the chunk came. */
  datatype Delivery<T> = Delivery(fileId: Id, chunk: Chunk<T>, opens: bool)

  function DeliveredAll<T>(m: Manager<T>, ds: seq<Delivery<T>>): Manager<T> {
    if ds == [] then m
    else
      var d := ds[|ds| - 1];
      Received(DeliveredAll(m, ds[..|ds| - 1]), d.fileId, d.chunk, d.opens)
  }

  /** The bytes of those chunks of a file whose target could be opened. */
  function Written<T>(ds: seq<Delivery<T>>, fileId: Id): seq<T> {
    if ds == [] then []
    else
      var d := ds[|ds| - 1];
      Written(ds[..|ds| - 1], fileId) + if d.fileId == fileId && d.opens then d.chunk.data else []
  }

  /** The last chunk that settles it decides: one that could not be written fails the download, one that was
      written and marked last completes it. */
  function StateAfter<T>(before: TransferState, ds: seq<Delivery<T>>, fileId: Id): TransferState {
    if ds == [] then before
    else
      var d := ds[|ds| - 1];
      if d.fileId == fileId && !d.opens then Failed
      else if d.fileId == fileId && d.chunk.isLast then Completed
      else StateAfter(before, ds[..|ds| - 1], fileId)
  }

  lemma FailedElsewhere<T>(m: Manager<T>, f: Id, c: Chunk<T>, opens: bool, fileId: Id)
    requires HasOwnPath(m, fileId) && f != fileId
    ensures var r := Received(m, f, c, opens);
            HasOwnPath(r, fileId) && TransferOf(r, fileId) == TransferOf(m, fileId)
            && r.Content(TransferOf(m, fileId).path) == m.Content(TransferOf(m, fileId).path)
  {
  }

  lemma FailedHere<T>(m: Manager<T>, fileId: Id, c: Chunk<T>)
    requires HasOwnPath(m, fileId) && !TransferOf(m, fileId).state.Cancelled?
    ensures var t := TransferOf(m, fileId); var r := Received(m, fileId, c, false);
            HasOwnPath(r, fileId) && TransferOf(r, fileId) == t.(state := Failed) && r.disk == m.disk
  {
  }

  /** In every run of deliveries, mixed in any way and failing at any moment, a download that is not cancelled
      has exactly the bytes that could be written, counts them, and is in the state its own chunks leave it. */
  lemma {:induction false} DeliveriesAreTold<T>(m: Manager<T>, ds: seq<Delivery<T>>, fileId: Id)
    requires HasOwnPath(m, fileId) && !TransferOf(m, fileId).state.Cancelled?
    ensures var t := TransferOf(m, fileId); var r := DeliveredAll(m, ds); var bytes := Written(ds, fileId);
            && HasOwnPath(r, fileId)
            && TransferOf(r, fileId) == Transfer(t.path, t.transferred + |bytes|, StateAfter(t.state, ds, fileId))
            && !TransferOf(r, fileId).state.Cancelled? && r.Content(t.path) == m.Content(t.path) + bytes
  {
    var t := TransferOf(m, fileId);
    hide Received, HasOwnPath;
    if ds != [] {
      var init, d := ds[..|ds| - 1], ds[|ds| - 1];
      DeliveriesAreTold(m, init, fileId);
      var before := DeliveredAll(m, init);
      if d.fileId != fileId {
        FailedElsewhere(before, d.fileId, d.chunk, d.opens, fileId);
      } else if d.opens {
        ReceivedHere(before, fileId, d.chunk);
        Reassociate(m.Content(t.path), Written(init, fileId), d.chunk.data);
      } else {
        FailedHere(before, fileId, d.chunk);
      }
    }
  }

  /** A chunk of an unknown or cancelled transfer changes nothing. */
  lemma IgnoredChunk<T>(m: Manager<T>, fileId: Id, c: Chunk<T>, opens: bool)
    requires fileId in m.byFileId && m.byFileId[fileId] in m.transfers ==> TransferOf(m, fileId).state.Cancelled?
    ensures Received(m, fileId, c, opens) == m
  {
  }
}
