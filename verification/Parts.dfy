/** Part files: what each request may do to them, and what any number of uploads that share one part keep,
    over every run (src/transfer.cpp, beginUpload, writeChunk and finishUpload). */
module Parts {
  import opened Basics
  import opened Disk
  import opened Store
  import opened Transfer
  import opened Handlers
  import opened DiskSafety
  import opened Runs

  // ---------------------------------------------------------------- the write window

  /** The range check works in 64-bit arithmetic and still means what it says: a sum that wraps needs an
      offset that pwrite rejects as negative. */
  lemma WriteWindow(up: Upload, offset: U64, data: Bytes)
    requires |data| < TWO_TO_THE_32
    ensures WriteRefusal(up, offset, data).None? <==>
            up.fd.Some? && offset + |data| <= up.total && offset < TWO_TO_THE_63
  {
  }

  /** An accepted chunk changes only the bytes it carries, all of them below the total. */
  lemma ChunkStaysInWindow(d: Disk, up: Upload, offset: U64, data: Bytes)
    requires |data| < TWO_TO_THE_32 && WriteRefusal(up, offset, data).None? && up.fd.value < |d.inodes|
    ensures var (r, _) := WriteChunk(d, up, offset, data);
            var old_bytes, new_bytes := Content(d, up.fd.value), Content(r, up.fd.value);
            && offset + |data| <= up.total
            && |new_bytes| <= Max(|old_bytes|, up.total)
            && |old_bytes| <= |new_bytes|
            && (data != [] ==> new_bytes[offset..offset + |data|] == data)
            && (forall i | 0 <= i < |old_bytes| && !(offset <= i < offset + |data|) :: new_bytes[i] == old_bytes[i])
            && (forall i | |old_bytes| <= i < |new_bytes| && i < offset :: new_bytes[i] == 0)
  {
    WriteWindow(up, offset, data);
  }

  // ---------------------------------------------------------------- one request

  /** The request starts an upload to the part. */
  predicate OpensPart(op: Op, p: PartName) {
    op.DoBegin? && op.part == Ok(p)
  }

  /** The request ends an upload to the part. */
  predicate EndsPart(c: Conn, op: Op, p: PartName) {
    op.DoEnd? && c.upload.fd.Some? && c.upload.part == p
  }

  /** The request is a chunk that is written into the inode. */
  predicate WritesInto(c: Conn, op: Op, i: Inode) {
    op.DoChunk? && c.upload.fd == Some(i) && ChunkRefusal(c, op.fileId, op.offset, op.data).None?
  }

  /** The request starts an upload to a part that is longer, and empties it. */
  predicate Empties(d: Disk, op: Op, i: Inode) {
    op.DoBegin? && op.part.Ok? && op.part.value in d.parts && d.parts[op.part.value] == i && |Content(d, i)| > op.size
  }

  /** A part is opened, ended or left alone, and only written and emptied inodes change. */
  ghost predicate PartsMove(d: Disk, c: Conn, op: Op, r: Disk) {
    && |d.inodes| <= |r.inodes|
    && (forall p | p in r.parts ::
          if p in d.parts then r.parts[p] == d.parts[p]
          else OpensPart(op, p) && r.parts[p] == |d.inodes| && Content(r, |d.inodes|) == [])
    && (forall p | p in d.parts && !EndsPart(c, op, p) :: p in r.parts)
    && (forall i: nat | i < |d.inodes| && !WritesInto(c, op, i) && !Empties(d, op, i) :: r.inodes[i] == d.inodes[i])
  }

  lemma BeginMoves(e: Env, s: Store, c: Conn, op: Op)
    requires op.DoBegin?
    ensures PartsMove(s.disk, c, op, OnUploadBegin(e, s, c, op.key, op.part, op.md5, op.size, op.fileId).store.disk)
  {
    hide PartsMove, OpenPart, BeginRefusal;
    if op.part.Ok? {
      OpenMoves(s.disk, c, op);
    }
    NothingMoves(s.disk, c, op);
  }

  lemma OpenMoves(d: Disk, c: Conn, op: Op)
    requires op.DoBegin? && op.part.Ok?
    ensures PartsMove(d, c, op, OpenPart(d, op.part.value, op.size))
  {
  }

  lemma NothingMoves(d: Disk, c: Conn, op: Op)
    ensures PartsMove(d, c, op, d)
  {
  }

  lemma ChunkMoves(s: Store, c: Conn, op: Op)
    requires op.DoChunk?
    ensures PartsMove(s.disk, c, op, OnUploadChunk(s, c, op.fileId, op.offset, op.data).store.disk)
  {
    hide Overlay;
  }

  lemma EndParts(e: Env, s: Store, c: Conn, userId: int)
    ensures var o := OnUploadEnd(e, s, c, userId);
            && (o.conn.upload == NO_UPLOAD || o.conn.upload == c.upload.(fd := None))
            && (o.store.disk.parts == s.disk.parts ||
                (c.upload.fd.Some? && o.store.disk.parts == s.disk.parts - {c.upload.part}))
  {
    hide Cleared, PublishFile, PartBytes;
  }

  lemma EndMoves(e: Env, s: Store, c: Conn, userId: int)
    requires DiskOk(e, s.disk) && ConnOk(s.disk, c) && CollisionFree(e, s, c, DoEnd)
    ensures PartsMove(s.disk, c, DoEnd, OnUploadEnd(e, s, c, userId).store.disk)
  {
    hide OnUploadEnd, CollisionFree, ConnOk, DiskOk;
    OnUploadEndStep(e, s, c, userId);
    EndParts(e, s, c, userId);
  }

  lemma PerformMoves(e: Env, s: Store, c: Conn, session: Session, op: Op)
    requires DiskOk(e, s.disk) && ConnOk(s.disk, c) && CollisionFree(e, s, c, op)
    ensures PartsMove(s.disk, c, op, Perform(e, s, c, session, op).store.disk)
  {
    hide ConnOk, DiskOk, CollisionFree, OnUploadBegin, OnUploadChunk, OnUploadEnd, PartsMove;
    hide RemovePath, RenamePath, InstantUpload, QueryInstant, OnDownloadChunk, BeginDownload;
    match op
    case DoBegin(_, _, _, _, _) => BeginMoves(e, s, c, op);
    case DoChunk(_, _, _) => ChunkMoves(s, c, op);
    case DoEnd => EndMoves(e, s, c, session.userId);
    case _ =>
      assert ObjectsUnlinked(s.disk, Perform(e, s, c, session, op).store.disk);
      OnlyObjectsMove(s.disk, c, op, Perform(e, s, c, session, op).store.disk);
  }

  lemma OnlyObjectsMove(d: Disk, c: Conn, op: Op, r: Disk)
    requires ObjectsUnlinked(d, r)
    ensures PartsMove(d, c, op, r)
  {
  }

  /** What a request makes of its connection's upload. */
  ghost predicate UploadMoves(e: Env, d: Disk, c: Conn, op: Op, r: Disk, up: Upload) {
    if op.DoBegin? && op.part.Ok? && BeginRefusal(e, op.md5, op.size).None? then
      (r, up) == BeginUpload(d, op.part.value, op.key.path, op.md5, op.size, op.fileId)
    else if op.DoChunk? && ChunkRefusal(c, op.fileId, op.offset, op.data).None? then
      (r, up) == WriteChunk(d, c.upload, op.offset, op.data)
    else up == c.upload.(fd := None) || up == NO_UPLOAD || (up == c.upload && !op.DoBegin?)
  }

  lemma PerformUpload(e: Env, s: Store, c: Conn, session: Session, op: Op)
    ensures var o := Perform(e, s, c, session, op); UploadMoves(e, s.disk, c, op, o.store.disk, o.conn.upload)
  {
    hide OnUploadEnd, RemovePath, RenamePath, InstantUpload, QueryInstant, OnDownloadChunk, BeginDownload;
    hide OpenPart, Write, WriteRefusal;
    EndParts(e, s, c, session.userId);
  }

  // ---------------------------------------------------------------- one step

  /** What a step does to uploads. */
  ghost predicate UploadsStep(e: Env, y: System, l: Label, z: System) {
    if OpOf(y, l).Some? then
      && l.id in z.conns && z.conns.Keys == y.conns.Keys
      && (forall i | i in y.conns && i != l.id :: z.conns[i] == y.conns[i])
      && UploadMoves(e, y.store.disk, y.conns[l.id], OpOf(y, l).value, z.store.disk, z.conns[l.id].upload)
    else
      forall i | i in z.conns ::
        if i in y.conns then z.conns[i].upload == y.conns[i].upload else z.conns[i].upload == NO_UPLOAD
  }

  lemma NextUploads(e: Env, y: System, l: Label)
    ensures UploadsStep(e, y, l, Next(e, y, l))
  {
    hide Perform, UploadMoves, Parse;
    if OpOf(y, l).Some? {
      PerformUpload(e, y.store, y.conns[l.id], y.conns[l.id].session.value, OpOf(y, l).value);
    }
  }

  /** What a step does to parts and their inodes. */
  ghost predicate DiskStep(y: System, l: Label, z: System) {
    if OpOf(y, l).Some? then PartsMove(y.store.disk, y.conns[l.id], OpOf(y, l).value, z.store.disk)
    else z.store.disk == y.store.disk
  }

  lemma NextDisk(e: Env, y: System, l: Label)
    requires SystemOk(e, y) && CollisionFreeStep(e, y, l)
    ensures DiskStep(y, l, Next(e, y, l))
  {
    hide Perform, PartsMove, Parse, CollisionFree;
    if OpOf(y, l).Some? {
      var c := y.conns[l.id];
      EndIsParsed(c.session.value, l.request);
      OnlyTheEnd(e, y.store, c, OpOf(y, l).value);
      PerformMoves(e, y.store, c, c.session.value, OpOf(y, l).value);
    }
  }

  // ---------------------------------------------------------------- parts have inodes of their own

  /** No two parts share an inode. */
  ghost predicate PartsApart(d: Disk) {
    forall p, q | p in d.parts && q in d.parts && p != q :: d.parts[p] != d.parts[q]
  }

  lemma StepKeepsApart(e: Env, y: System, l: Label)
    requires SystemOk(e, y) && CollisionFreeStep(e, y, l) && PartsApart(y.store.disk)
    ensures PartsApart(Next(e, y, l).store.disk)
  {
    hide Next, OpOf;
    NextDisk(e, y, l);
  }

  /** In every reachable state no two parts share an inode. */
  lemma {:induction false} PartsStayApart(e: Env, y: System, ls: seq<Label>)
    requires SystemOk(e, y) && CollisionFreeRun(e, y, ls) && PartsApart(y.store.disk)
    ensures SystemOk(e, Run(e, y, ls)) && PartsApart(Run(e, y, ls).store.disk)
  {
    hide Next, SystemOk, PartsApart, CollisionFreeStep, CollisionFreeRun;
    if ls != [] {
      CollisionFreeInit(e, y, ls);
      PartsStayApart(e, y, ls[..|ls| - 1]);
      StepKeepsApart(e, Run(e, y, ls[..|ls| - 1]), ls[|ls| - 1]);
      NextOk(e, Run(e, y, ls[..|ls| - 1]), ls[|ls| - 1]);
    }
  }

  // ---------------------------------------------------------------- what has been received

  ghost predicate WithinTotal(y: System) {
    forall i | i in y.conns :: y.conns[i].upload.received <= y.conns[i].upload.total
  }

  lemma MoveWithinTotal(e: Env, d: Disk, c: Conn, op: Op, r: Disk, up: Upload)
    requires UploadMoves(e, d, c, op, r, up) && c.upload.received <= c.upload.total
    ensures up.received <= up.total
  {
  }

  lemma StepWithinTotal(e: Env, y: System, l: Label)
    requires WithinTotal(y)
    ensures WithinTotal(Next(e, y, l))
  {
    NextUploads(e, y, l);
    hide Next, UploadMoves;
    if OpOf(y, l).Some? {
      var z := Next(e, y, l);
      MoveWithinTotal(e, y.store.disk, y.conns[l.id], OpOf(y, l).value, z.store.disk, z.conns[l.id].upload);
    }
  }

  /** Over every run, with any number of writers of one part, no upload has ever received more than its total. */
  lemma {:induction false} ReceivedWithinTotal(e: Env, y: System, ls: seq<Label>)
    requires WithinTotal(y)
    ensures WithinTotal(Run(e, y, ls))
  {
    if ls != [] {
      ReceivedWithinTotal(e, y, ls[..|ls| - 1]);
      StepWithinTotal(e, Run(e, y, ls[..|ls| - 1]), ls[|ls| - 1]);
    }
  }

  /** For a sole writer: what has been received is the length of the file that is written. */
  ghost predicate ReceivedIsLength(y: System, id: int) {
    id in y.conns && y.conns[id].upload.fd.Some? ==>
      y.conns[id].upload.received == |Content(y.store.disk, y.conns[id].upload.fd.value)|
  }

  /** Nobody but `id` writes or empties the file it writes, and its own chunks are the size of a frame and
      either hold something or do not lie beyond what has been received. */
  predicate SoleWriter(y: System, l: Label, id: int) {
    OpOf(y, l).Some? && id in y.conns ==>
      var op, up := OpOf(y, l).value, y.conns[id].upload;
      if l.id == id then
        up.fd.Some? && WritesInto(y.conns[id], op, up.fd.value) ==>
          |op.data| < TWO_TO_THE_32 && (op.data != [] || op.offset <= up.received)
      else
        up.fd.Some? ==> !WritesInto(y.conns[l.id], op, up.fd.value) && !Empties(y.store.disk, op, up.fd.value)
  }

  /** One chunk of a sole writer: its condition is exactly what keeps `received` the length. */
  lemma ChunkKeepsLength(d: Disk, up: Upload, offset: U64, data: Bytes)
    requires |data| < TWO_TO_THE_32 && WriteRefusal(up, offset, data).None? && up.fd.value < |d.inodes|
    requires up.received == |Content(d, up.fd.value)| <= up.total
    ensures var (r, after) := WriteChunk(d, up, offset, data);
            after.received == |Content(r, after.fd.value)| <==> data != [] || offset <= up.received
  {
    WriteWindow(up, offset, data);
  }

  lemma OwnMoveKeepsLength(e: Env, d: Disk, c: Conn, op: Op, r: Disk, up: Upload)
    requires UploadMoves(e, d, c, op, r, up) && PartsMove(d, c, op, r)
    requires c.upload.received <= c.upload.total
    requires c.upload.fd.Some? ==>
               c.upload.fd.value < |d.inodes| && c.upload.received == |Content(d, c.upload.fd.value)|
    requires c.upload.fd.Some? && WritesInto(c, op, c.upload.fd.value) ==>
               |op.data| < TWO_TO_THE_32 && (op.data != [] || op.offset <= c.upload.received)
    ensures up.fd.Some? ==> up.received == |Content(r, up.fd.value)|
  {
    hide WriteChunk, OpenPart;
    if op.DoChunk? && ChunkRefusal(c, op.fileId, op.offset, op.data).None? {
      ChunkKeepsLength(d, c.upload, op.offset, op.data);
      assert WriteChunk(d, c.upload, op.offset, op.data).1.fd == c.upload.fd by {
        ChunkKeepsFd(d, c.upload, op.offset, op.data);
      }
    }
  }

  lemma ChunkKeepsFd(d: Disk, up: Upload, offset: U64, data: Bytes)
    requires WriteRefusal(up, offset, data).None?
    ensures WriteChunk(d, up, offset, data).1.fd == up.fd
  {
  }

  lemma StepKeepsLength(e: Env, y: System, l: Label, id: int)
    requires SystemOk(e, y) && CollisionFreeStep(e, y, l) && WithinTotal(y)
    requires ReceivedIsLength(y, id) && SoleWriter(y, l, id)
    ensures ReceivedIsLength(Next(e, y, l), id)
  {
    NextUploads(e, y, l);
    NextDisk(e, y, l);
    hide Next, UploadMoves, WritesInto, Empties;
    if OpOf(y, l).Some? && id in y.conns {
      var z := Next(e, y, l);
      assert ConnOk(y.store.disk, y.conns[id]);
      if l.id == id {
        OwnMoveKeepsLength(e, y.store.disk, y.conns[id], OpOf(y, l).value, z.store.disk, z.conns[id].upload);
      }
    }
  }

  /** Over every run in which `id` is the sole writer of its file, what it has received is the file's length. */
  lemma {:induction false} SoleWriterReceivedIsLength(e: Env, y: System, ls: seq<Label>, id: int)
    requires SystemOk(e, y) && WithinTotal(y) && ReceivedIsLength(y, id)
    requires CollisionFreeRun(e, y, ls) && forall n | 0 <= n < |ls| :: SoleWriter(Run(e, y, ls[..n]), ls[n], id)
    ensures ReceivedIsLength(Run(e, y, ls), id)
  {
    hide Next, SystemOk, ReceivedIsLength, SoleWriter, WithinTotal, CollisionFreeStep, CollisionFreeRun;
    if ls != [] {
      var init, last := ls[..|ls| - 1], ls[|ls| - 1];
      CollisionFreeInit(e, y, ls);
      forall n | 0 <= n < |init| ensures SoleWriter(Run(e, y, init[..n]), init[n], id) {
        assert init[..n] == ls[..n] && init[n] == ls[n];
      }
      assert SoleWriter(Run(e, y, ls[..|ls| - 1]), ls[|ls| - 1], id);
      SoleWriterReceivedIsLength(e, y, init, id);
      PublishedContentIsRight(e, y, init);
      ReceivedWithinTotal(e, y, init);
      StepKeepsLength(e, Run(e, y, init), last, id);
    }
  }

  // ---------------------------------------------------------------- a part that many uploads share

  /** The part holds a prefix of the content, and every upload that holds the part's inode is for a content of
      that length and has received no more than the part holds. */
  ghost predicate Growing(y: System, p: PartName, content: Bytes) {
    && PartBytes(y.store.disk, p) <= content
    && forall i | i in y.conns :: HolderOk(y.store.disk, p, content, y.conns[i].upload)
  }

  predicate HolderOk(d: Disk, p: PartName, content: Bytes, up: Upload) {
    p in d.parts && up.fd == Some(d.parts[p]) ==> up.total == |content| && up.received <= |PartBytes(d, p)|
  }

  /** The chunk is a piece of the content, and leaves no gap after what its upload has received. */
  predicate PieceOf(up: Upload, op: Op, content: Bytes)
    requires op.DoChunk?
  {
    op.offset <= up.received && op.offset + |op.data| <= |content|
        && op.data == content[op.offset..op.offset + |op.data|]
  }

  predicate HonestOp(d: Disk, c: Conn, op: Op, p: PartName, content: Bytes) {
    && (OpensPart(op, p) ==> op.size == |content|)
    && (p in d.parts && WritesInto(c, op, d.parts[p]) ==> PieceOf(c.upload, op, content))
  }

  /** An honest step on the part: uploads to it are for contents of that length, and chunks into it are pieces
      of the content. Anybody may do anything else, and hold, write and end the part at the same time. */
  predicate Honest(y: System, l: Label, p: PartName, content: Bytes) {
    OpOf(y, l).Some? ==> HonestOp(y.store.disk, y.conns[l.id], OpOf(y, l).value, p, content)
  }

  lemma PieceGrows(bytes: Bytes, content: Bytes, offset: nat, data: Bytes)
    requires bytes <= content && offset <= |bytes| && offset + |data| <= |content|
    requires data == content[offset..offset + |data|]
    ensures Overlay(bytes, offset, data) <= content
    ensures |Overlay(bytes, offset, data)| == Max(|bytes|, offset + |data|)
  {
  }

  /** What the sender's honest request makes of the part's bytes. */
  lemma OwnBytesGrow(e: Env, d: Disk, c: Conn, op: Op, r: Disk, up: Upload, p: PartName, content: Bytes)
    requires PartsApart(d) && (forall q | q in d.parts :: d.parts[q] < |d.inodes|)
    requires UploadMoves(e, d, c, op, r, up) && PartsMove(d, c, op, r) && HonestOp(d, c, op, p, content)
    requires PartBytes(d, p) <= content && HolderOk(d, p, content, c.upload)
    ensures PartBytes(r, p) <= content
    ensures p in d.parts && p in r.parts ==> |PartBytes(d, p)| <= |PartBytes(r, p)|
    ensures p in d.parts && p in r.parts && WritesInto(c, op, d.parts[p]) ==>
            |PartBytes(r, p)| == Max(|PartBytes(d, p)|, op.offset + |op.data|)
  {
    if p in d.parts && WritesInto(c, op, d.parts[p]) {
      hide PartsMove, PartsApart;
      PieceGrows(PartBytes(d, p), content, op.offset, op.data);
      hide Overlay, PieceOf;
    } else {
      hide UploadMoves, PieceOf;
    }
  }

  /** What it makes of the sender's upload. */
  lemma OwnHolderGrows(e: Env, d: Disk, c: Conn, op: Op, r: Disk, up: Upload, p: PartName, content: Bytes)
    requires PartsApart(d) && (forall q | q in d.parts :: d.parts[q] < |d.inodes|)
    requires c.upload.fd.Some? ==> c.upload.fd.value < |d.inodes|
    requires UploadMoves(e, d, c, op, r, up) && PartsMove(d, c, op, r) && HonestOp(d, c, op, p, content)
    requires HolderOk(d, p, content, c.upload)
    requires p in d.parts && p in r.parts ==> |PartBytes(d, p)| <= |PartBytes(r, p)|
    requires p in d.parts && p in r.parts && WritesInto(c, op, d.parts[p]) ==>
             |PartBytes(r, p)| == Max(|PartBytes(d, p)|, op.offset + |op.data|)
    ensures HolderOk(r, p, content, up)
  {
    hide Overlay;
    if op.DoBegin? {
      hide WritesInto, PieceOf;
    } else if op.DoChunk? && ChunkRefusal(c, op.fileId, op.offset, op.data).None? {
      hide PartBytes;
    } else {
      hide PartBytes, HonestOp;
    }
  }

  /** The sender's own side of an honest step. */
  lemma OwnMoveGrows(e: Env, d: Disk, c: Conn, op: Op, r: Disk, up: Upload, p: PartName, content: Bytes)
    requires PartsApart(d) && (forall q | q in d.parts :: d.parts[q] < |d.inodes|)
    requires c.upload.fd.Some? ==> c.upload.fd.value < |d.inodes|
    requires UploadMoves(e, d, c, op, r, up) && PartsMove(d, c, op, r) && HonestOp(d, c, op, p, content)
    requires PartBytes(d, p) <= content && HolderOk(d, p, content, c.upload)
    ensures PartBytes(r, p) <= content && HolderOk(r, p, content, up)
    ensures p in d.parts && p in r.parts ==> |PartBytes(d, p)| <= |PartBytes(r, p)|
  {
    OwnBytesGrow(e, d, c, op, r, up, p, content);
    OwnHolderGrows(e, d, c, op, r, up, p, content);
    hide UploadMoves, PartsMove, HonestOp, HolderOk, PartsApart;
  }

  /** Everybody else's side of it. */
  lemma OtherHolderGrows(d: Disk, c: Conn, op: Op, r: Disk, up: Upload, p: PartName, content: Bytes)
    requires PartsMove(d, c, op, r) && (up.fd.Some? ==> up.fd.value < |d.inodes|)
    requires HolderOk(d, p, content, up) && (p in d.parts && p in r.parts ==> |PartBytes(d, p)| <= |PartBytes(r, p)|)
    ensures HolderOk(r, p, content, up)
  {
  }

  lemma StepGrows(e: Env, y: System, l: Label, p: PartName, content: Bytes)
    requires SystemOk(e, y) && PartsApart(y.store.disk) && CollisionFreeStep(e, y, l)
    requires Growing(y, p, content) && Honest(y, l, p, content)
    ensures Growing(Next(e, y, l), p, content)
  {
    NextUploads(e, y, l);
    NextDisk(e, y, l);
    hide Next, UploadMoves, PartsMove, HonestOp, HolderOk, DiskOk;
    var z := Next(e, y, l);
    if OpOf(y, l).Some? {
      var c, op := y.conns[l.id], OpOf(y, l).value;
      assert ConnOk(y.store.disk, c);
      PartInodes(e, y.store.disk);
      OwnMoveGrows(e, y.store.disk, c, op, z.store.disk, z.conns[l.id].upload, p, content);
      forall i | i in z.conns && i != l.id ensures HolderOk(z.store.disk, p, content, z.conns[i].upload) {
        assert ConnOk(y.store.disk, y.conns[i]);
        OtherHolderGrows(y.store.disk, c, op, z.store.disk, z.conns[i].upload, p, content);
      }
    } else {
      NoUploadHolds(y.store.disk, p, content);
    }
  }

  lemma PartInodes(e: Env, d: Disk)
    requires DiskOk(e, d)
    ensures forall q | q in d.parts :: d.parts[q] < |d.inodes|
  {
  }

  lemma NoUploadHolds(d: Disk, p: PartName, content: Bytes)
    ensures HolderOk(d, p, content, NO_UPLOAD)
  {
  }

  ghost predicate HonestRun(e: Env, y: System, ls: seq<Label>, p: PartName, content: Bytes) {
    forall n | 0 <= n < |ls| :: Honest(Run(e, y, ls[..n]), ls[n], p, content)
  }

  /** Over every run, however many uploads of one content are begun, interrupted, resumed, left hanging or
      finished, on however many connections that hold the part together, the part stays a prefix of it. */
  lemma {:induction false} PartStaysPrefix(e: Env, y: System, ls: seq<Label>, p: PartName, content: Bytes)
    requires SystemOk(e, y) && PartsApart(y.store.disk) && CollisionFreeRun(e, y, ls)
    requires Growing(y, p, content) && HonestRun(e, y, ls, p, content)
    ensures Growing(Run(e, y, ls), p, content)
  {
    hide Next, SystemOk, Growing, Honest, PartsApart, CollisionFreeStep, CollisionFreeRun;
    if ls != [] {
      var init, last := ls[..|ls| - 1], ls[|ls| - 1];
      CollisionFreeInit(e, y, ls);
      forall n | 0 <= n < |init| ensures Honest(Run(e, y, init[..n]), init[n], p, content) {
        assert init[..n] == ls[..n] && init[n] == ls[n];
      }
      assert Honest(Run(e, y, ls[..|ls| - 1]), ls[|ls| - 1], p, content);
      PartStaysPrefix(e, y, init, p, content);
      PartsStayApart(e, y, init);
      StepGrows(e, Run(e, y, init), last, p, content);
    }
  }

  // ---------------------------------------------------------------- a part that is left alone

  /** The step begins no upload to the part, writes nothing into it and ends no upload of it. Connections may
      hold the part all the same. */
  predicate LeavesPart(y: System, l: Label, p: PartName) {
    OpOf(y, l).Some? ==>
      var c, op := y.conns[l.id], OpOf(y, l).value;
      && !OpensPart(op, p) && !EndsPart(c, op, p)
      && (p in y.store.disk.parts ==> !WritesInto(c, op, y.store.disk.parts[p]))
  }

  predicate KeepsPart(d: Disk, p: PartName, r: Disk) {
    && (p in r.parts <==> p in d.parts)
    && (p in d.parts ==> r.parts[p] == d.parts[p] && PartBytes(r, p) == PartBytes(d, p))
  }

  lemma MoveKeepsPart(d: Disk, c: Conn, op: Op, r: Disk, p: PartName)
    requires PartsApart(d) && (forall q | q in d.parts :: d.parts[q] < |d.inodes|) && PartsMove(d, c, op, r)
    requires !OpensPart(op, p) && !EndsPart(c, op, p) && (p in d.parts ==> !WritesInto(c, op, d.parts[p]))
    ensures KeepsPart(d, p, r)
  {
  }

  lemma StepKeepsPart(e: Env, y: System, l: Label, p: PartName)
    requires SystemOk(e, y) && PartsApart(y.store.disk) && CollisionFreeStep(e, y, l) && LeavesPart(y, l, p)
    ensures KeepsPart(y.store.disk, p, Next(e, y, l).store.disk)
  {
    NextDisk(e, y, l);
    hide Next, PartsMove, OpensPart, EndsPart, WritesInto, DiskOk;
    if OpOf(y, l).Some? {
      PartInodes(e, y.store.disk);
      MoveKeepsPart(y.store.disk, y.conns[l.id], OpOf(y, l).value, Next(e, y, l).store.disk, p);
    }
  }

  // ---------------------------------------------------------------- the start

  /** The empty server meets the premises of every run above, for every part and content. */
  lemma StartIsInOrder(e: Env, id: int, p: PartName, content: Bytes)
    ensures SystemOk(e, START) && PartsApart(START.store.disk) && WithinTotal(START)
    ensures ReceivedIsLength(START, id) && Growing(START, p, content)
  {
  }
}
