/** What the files keep under every interleaving of requests, with no guard on the requests:
    objects hold the bytes their names promise, and no inode that may still be written is an
    object or is being downloaded. Only two contents with one md5 could break this. */
module DiskSafety {
  import opened Basics
  import opened Disk
  import opened Store
  import opened Transfer
  import opened Handlers

  // ---------------------------------------------------------------- invariants

  ghost predicate NoCollision(e: Env, a: Bytes, b: Bytes) {
    e.hash(a) == e.hash(b) ==> a == b
  }

  /** The one premise: a part about to be published does not collide with the object of its md5. */
  ghost predicate CollisionFree(e: Env, s: Store, c: Conn, op: Op) {
    op.DoEnd? && FinishRefusal(e, s.disk, c.upload).None? && c.upload.md5 in s.disk.objects ==>
      NoCollision(e, ObjectBytes(s.disk, c.upload.md5), PartBytes(s.disk, c.upload.part))
  }

  /** Every object hashes to its name, and no object shares an inode with a part. */
  ghost predicate DiskOk(e: Env, d: Disk) {
    && (forall m | m in d.objects :: d.objects[m] < |d.inodes| && |m| == 32 && e.hash(ObjectBytes(d, m)) == m)
    && (forall p | p in d.parts :: d.parts[p] < |d.inodes|)
    && (forall m, p | m in d.objects && p in d.parts :: d.objects[m] != d.parts[p])
  }

  /** A connection's descriptors: uploads write no object, downloads read no part. */
  ghost predicate ConnOk(d: Disk, c: Conn) {
    && (c.upload.fd.Some? ==>
          && c.upload.fd.value < |d.inodes|
          && |c.upload.md5| == 32
          && forall m | m in d.objects :: d.objects[m] != c.upload.fd.value)
    && (c.download.fd.Some? ==>
          && c.download.fd.value < |d.inodes|
          && c.download.total == |Content(d, c.download.fd.value)|
          && forall p | p in d.parts :: d.parts[p] != c.download.fd.value)
  }

  /** No inode is written by `a` and read by `b`. */
  predicate Apart(a: Conn, b: Conn) {
    a.upload.fd.Some? && b.download.fd.Some? ==> a.upload.fd.value != b.download.fd.value
  }

  // ---------------------------------------------------------------- frames

  /** Only `w` may have changed its bytes; a path names the inode it named before or a new one. */
  ghost predicate Frame(d: Disk, w: Option<Inode>, r: Disk) {
    && |d.inodes| <= |r.inodes|
    && (forall i: nat | i < |d.inodes| && w != Some(i) :: r.inodes[i] == d.inodes[i])
    && (forall m | m in r.objects ::
          (m in d.objects && r.objects[m] == d.objects[m]) || r.objects[m] >= |d.inodes|)
    && (forall p | p in r.parts ::
          (p in d.parts && r.parts[p] == d.parts[p]) || r.parts[p] >= |d.inodes|)
  }

  /** A connection that does not read the changed inode keeps its descriptors in order. */
  lemma ConnSurvives(d: Disk, w: Option<Inode>, r: Disk, c: Conn)
    requires Frame(d, w, r) && ConnOk(d, c)
    requires w.Some? ==> c.download.fd != w
    ensures ConnOk(r, c)
    ensures c.download.fd.Some? ==> Content(r, c.download.fd.value) == Content(d, c.download.fd.value)
  {
  }

  // ---------------------------------------------------------------- operations on files

  /** `r` is `d` with `part` opened: a new inode, or the one it had, written if it is `w`. */
  ghost predicate PartOpened(e: Env, d: Disk, part: PartName, w: Option<Inode>, r: Disk) {
    && DiskOk(e, r) && Frame(d, w, r)
    && (w.Some? ==> part in d.parts && w.value == d.parts[part])
    && part in r.parts && r.parts[part] < |r.inodes|
    && (if part in d.parts then r.parts[part] == d.parts[part] else r.parts[part] == |d.inodes|)
  }

  lemma NewPartOk(e: Env, d: Disk, part: PartName)
    requires DiskOk(e, d) && part !in d.parts
    ensures PartOpened(e, d, part, None, d.(parts := d.parts[part := |d.inodes|], inodes := d.inodes + [[]]))
  {
    NewPartKeepsObjects(e, d, part);
    hide DiskOk;
  }

  lemma NewPartKeepsObjects(e: Env, d: Disk, part: PartName)
    requires DiskOk(e, d)
    ensures DiskOk(e, d.(parts := d.parts[part := |d.inodes|], inodes := d.inodes + [[]]))
  {
    var r := d.(parts := d.parts[part := |d.inodes|], inodes := d.inodes + [[]]);
    forall m | m in d.objects ensures e.hash(ObjectBytes(r, m)) == m {
      assert ObjectBytes(r, m) == ObjectBytes(d, m);
    }
  }

  lemma CutPartOk(e: Env, d: Disk, part: PartName)
    requires DiskOk(e, d) && part in d.parts
    ensures PartOpened(e, d, part, Some(d.parts[part]), SetContent(d, d.parts[part], []))
  {
    var r := SetContent(d, d.parts[part], []);
    assert forall m | m in d.objects :: ObjectBytes(r, m) == ObjectBytes(d, m);
  }

  lemma OpenPartOk(e: Env, d: Disk, part: PartName, size: nat) returns (w: Option<Inode>)
    requires DiskOk(e, d)
    ensures PartOpened(e, d, part, w, OpenPart(d, part, size))
  {
    w := None;
    if part !in d.parts {
      NewPartOk(e, d, part);
    } else if |PartBytes(d, part)| > size {
      w := Some(d.parts[part]);
      CutPartOk(e, d, part);
    }
  }

  lemma WriteOk(e: Env, d: Disk, i: Inode, offset: nat, data: Bytes)
    requires DiskOk(e, d) && forall m | m in d.objects :: d.objects[m] != i
    ensures DiskOk(e, Write(d, i, offset, data)) && Frame(d, Some(i), Write(d, i, offset, data))
  {
    var r := Write(d, i, offset, data);
    assert forall m | m in d.objects :: ObjectBytes(r, m) == ObjectBytes(d, m);
  }

  /** Publishing never writes into an object: without a collision the file is kept or is new. */
  lemma PublishOk(e: Env, d: Disk, m: Md5, b: Bytes)
    requires DiskOk(e, d) && |m| == 32 && e.hash(b) == m
    requires m in d.objects ==> NoCollision(e, ObjectBytes(d, m), b)
    ensures var r := PublishFile(d, m, b);
            && DiskOk(e, r) && Frame(d, None, r)
            && r.parts == d.parts && r.objects.Keys == d.objects.Keys + {m}
            && ObjectBytes(r, m) == b
            && forall n | n in d.objects :: ObjectBytes(r, n) == ObjectBytes(d, n)
  {
    hide PublishFile, DiskOk, Frame, ObjectBytes;
    if m !in d.objects {
      NewFileOk(e, d, m, b);
    } else {
      FileKept(e, d, m, b);
      NothingWritten(d);
    }
  }

  lemma NewFileOk(e: Env, d: Disk, m: Md5, b: Bytes)
    requires DiskOk(e, d) && |m| == 32 && e.hash(b) == m && m !in d.objects
    ensures var r := PublishFile(d, m, b);
            && DiskOk(e, r) && Frame(d, None, r)
            && r.parts == d.parts && r.objects.Keys == d.objects.Keys + {m}
            && ObjectBytes(r, m) == b
            && forall n | n in d.objects :: ObjectBytes(r, n) == ObjectBytes(d, n)
  {
    NewFileFrame(d, m, b);
    hide Frame;
    var r := PublishFile(d, m, b);
    assert forall n | n in d.objects :: ObjectBytes(r, n) == ObjectBytes(d, n);
  }

  lemma NewFileFrame(d: Disk, m: Md5, b: Bytes)
    requires m !in d.objects
    ensures Frame(d, None, PublishFile(d, m, b))
  {
  }

  lemma FileKept(e: Env, d: Disk, m: Md5, b: Bytes)
    requires DiskOk(e, d) && m in d.objects && e.hash(b) == m && NoCollision(e, ObjectBytes(d, m), b)
    ensures PublishFile(d, m, b) == d && ObjectBytes(d, m) == b
  {
  }

  lemma NothingWritten(d: Disk)
    ensures Frame(d, None, d)
  {
  }

  lemma UnlinkOk(e: Env, d: Disk, r: Disk)
    requires DiskOk(e, d) && ObjectsUnlinked(d, r)
    ensures DiskOk(e, r) && Frame(d, None, r)
    ensures forall m | m in r.objects :: ObjectBytes(r, m) == ObjectBytes(d, m)
  {
    assert forall m | m in r.objects :: ObjectBytes(r, m) == ObjectBytes(d, m);
  }

  // ---------------------------------------------------------------- one request

  /** The inodes a request may write: the one its upload holds, and parts. */
  ghost predicate MayWrite(d: Disk, c: Conn, w: Option<Inode>) {
    w.None? || c.upload.fd == w || exists p :: p in d.parts && w == Some(d.parts[p])
  }

  /** A request's effect on the files and on its own descriptors. */
  ghost predicate FileStep(e: Env, d: Disk, c: Conn, w: Option<Inode>, r: Disk, c': Conn) {
    && DiskOk(e, r) && Frame(d, w, r) && MayWrite(d, c, w)
    && (c'.upload.fd.Some? ==>
          && c'.upload.fd.value < |r.inodes| && |c'.upload.md5| == 32
          && (forall m | m in r.objects :: r.objects[m] != c'.upload.fd.value)
          && (c'.upload.fd == c.upload.fd || c'.upload.fd.value >= |d.inodes|
              || exists p :: p in d.parts && d.parts[p] == c'.upload.fd.value))
    && (c'.download.fd.Some? ==>
          c'.download == c.download ||
          (w.None? && r == d && c'.download.total == |Content(r, c'.download.fd.value)| &&
           exists m :: m in d.objects && d.objects[m] == c'.download.fd.value))
  }

  ghost predicate StepOk(e: Env, s: Store, c: Conn, w: Option<Inode>, o: Outcome) {
    FileStep(e, s.disk, c, w, o.store.disk, o.conn)
  }

  /** After a request its own connection is in order, and would still read what it read before. */
  lemma OwnConn(e: Env, d: Disk, c: Conn, w: Option<Inode>, r: Disk, c': Conn)
    requires DiskOk(e, d) && ConnOk(d, c) && Apart(c, c) && FileStep(e, d, c, w, r, c')
    ensures DiskOk(e, r) && ConnOk(r, c') && Apart(c', c')
    ensures c.download.fd.Some? ==> Content(r, c.download.fd.value) == Content(d, c.download.fd.value)
  {
    ConnSurvives(d, w, r, c);
  }

  /** After a request every other connection is in order, and reads what it read before. */
  lemma OtherConn(e: Env, d: Disk, c: Conn, w: Option<Inode>, r: Disk, c': Conn, other: Conn)
    requires DiskOk(e, d) && ConnOk(d, c) && FileStep(e, d, c, w, r, c')
    requires ConnOk(d, other) && Apart(c, other) && Apart(other, c)
    ensures ConnOk(r, other) && Apart(c', other) && Apart(other, c')
    ensures other.download.fd.Some? ==> Content(r, other.download.fd.value) == Content(d, other.download.fd.value)
  {
    ConnSurvives(d, w, r, other);
  }

  lemma UploadBeginStep(e: Env, d: Disk, c: Conn, part: PartName, path: string, m: Md5, size: U64, fileId: FileId)
    returns (w: Option<Inode>)
    requires DiskOk(e, d) && ConnOk(d, c) && |m| == 32
    ensures var (r, up) := BeginUpload(d, part, path, m, size, fileId);
            FileStep(e, d, c, w, r, c.(upload := up))
  {
    w := OpenPartOk(e, d, part, size);
  }

  lemma UploadChunkStep(e: Env, d: Disk, c: Conn, offset: U64, data: Bytes)
    requires DiskOk(e, d) && ConnOk(d, c) && WriteRefusal(c.upload, offset, data).None?
    ensures var (r, up) := WriteChunk(d, c.upload, offset, data);
            FileStep(e, d, c, c.upload.fd, r, c.(upload := up))
  {
    WriteOk(e, d, c.upload.fd.value, offset, data);
  }

  lemma FinishUploadStep(e: Env, s: Store, c: Conn, k: Key)
    requires DiskOk(e, s.disk) && ConnOk(s.disk, c) && CollisionFree(e, s, c, DoEnd)
    requires FinishRefusal(e, s.disk, c.upload).None?
    ensures FileStep(e, s.disk, c, None, FinishUpload(s, k, c.upload).disk, c.(upload := NO_UPLOAD))
  {
    var up := c.upload;
    var b, cleared := PartBytes(s.disk, up.part), Cleared(s, k);
    UnlinkOk(e, s.disk, cleared.disk);
    PublishOk(e, cleared.disk, up.md5, b);
    PartUnlinked(e, PublishFile(cleared.disk, up.md5, b), up.part);
  }

  lemma PartUnlinked(e: Env, d: Disk, p: PartName)
    requires DiskOk(e, d)
    ensures DiskOk(e, UnlinkPart(d, p)) && Frame(d, None, UnlinkPart(d, p))
  {
    assert forall m | m in d.objects :: ObjectBytes(UnlinkPart(d, p), m) == ObjectBytes(d, m);
  }

  lemma OnUploadBeginStep(e: Env, s: Store, c: Conn, k: Key, part: Result<PartName>, m: Md5, size: U64, fileId: FileId)
    returns (w: Option<Inode>)
    requires DiskOk(e, s.disk) && ConnOk(s.disk, c)
    ensures StepOk(e, s, c, w, OnUploadBegin(e, s, c, k, part, m, size, fileId))
  {
    w := None;
    if part.Ok? && BeginRefusal(e, m, size).None? {
      w := UploadBeginStep(e, s.disk, c, part.value, k.path, m, size, fileId);
    } else {
      IndexStep(e, s, c, OnUploadBegin(e, s, c, k, part, m, size, fileId));
    }
  }

  lemma OnUploadChunkStep(e: Env, s: Store, c: Conn, fileId: FileId, offset: U64, data: Bytes)
    returns (w: Option<Inode>)
    requires DiskOk(e, s.disk) && ConnOk(s.disk, c)
    ensures StepOk(e, s, c, w, OnUploadChunk(s, c, fileId, offset, data))
  {
    w := None;
    if ChunkRefusal(c, fileId, offset, data).None? {
      UploadChunkStep(e, s.disk, c, offset, data);
      w := c.upload.fd;
    } else {
      IndexStep(e, s, c, OnUploadChunk(s, c, fileId, offset, data));
    }
  }

  lemma OnUploadEndStep(e: Env, s: Store, c: Conn, userId: int)
    requires DiskOk(e, s.disk) && ConnOk(s.disk, c) && CollisionFree(e, s, c, DoEnd)
    ensures StepOk(e, s, c, None, OnUploadEnd(e, s, c, userId))
  {
    if FinishRefusal(e, s.disk, c.upload).None? {
      FinishUploadStep(e, s, c, Key(userId, c.upload.path));
    } else {
      PartUnlinked(e, s.disk, c.upload.part);
    }
  }

  lemma OnDownloadBeginStep(e: Env, s: Store, c: Conn, k: Key, phys: Result<string>, fileId: FileId)
    requires DiskOk(e, s.disk) && ConnOk(s.disk, c)
    ensures StepOk(e, s, c, None, OnDownloadBegin(s, c, k, phys, fileId))
  {
    if phys.Ok? && BeginDownload(s, k, fileId).Ok? {
      var m := KeyMd5(s, k);
      assert m in s.disk.objects && BeginDownload(s, k, fileId).value.fd == Some(s.disk.objects[m]);
    }
  }

  /** Requests that only change the index, Redis, the session, or unlink objects. */
  lemma IndexStep(e: Env, s: Store, c: Conn, o: Outcome)
    requires DiskOk(e, s.disk) && ConnOk(s.disk, c) && ObjectsUnlinked(s.disk, o.store.disk)
    requires o.conn.upload == c.upload || o.conn.upload == c.upload.(fd := None)
    requires o.conn.download == c.download
    ensures StepOk(e, s, c, None, o)
  {
    UnlinkOk(e, s.disk, o.store.disk);
  }

  /** Every request is a file step. */
  lemma PerformStep(e: Env, s: Store, c: Conn, session: Session, op: Op) returns (w: Option<Inode>)
    requires DiskOk(e, s.disk) && ConnOk(s.disk, c) && CollisionFree(e, s, c, op)
    ensures StepOk(e, s, c, w, Perform(e, s, c, session, op))
  {
    hide OnUploadBegin, OnUploadChunk, OnUploadEnd, OnDownloadBegin, DiskOk, ConnOk, FileStep;
    hide RemovePath, RenamePath, InstantUpload, QueryInstant, OnDownloadChunk;
    w := None;
    match op
    case DoBegin(k, part, m, size, fileId) => w := OnUploadBeginStep(e, s, c, k, part, m, size, fileId);
    case DoChunk(fileId, offset, data) => w := OnUploadChunkStep(e, s, c, fileId, offset, data);
    case DoEnd => OnUploadEndStep(e, s, c, session.userId);
    case DoOpen(k, phys, fileId) => OnDownloadBeginStep(e, s, c, k, phys, fileId);
    case _ => IndexStep(e, s, c, Perform(e, s, c, session, op));
  }

  /** The premise for a request as it is sent. */
  ghost predicate RequestCollisionFree(e: Env, s: Store, c: Conn, r: Request) {
    r.UploadEnd? ==> CollisionFree(e, s, c, DoEnd)
  }

  lemma EndIsParsed(session: Session, r: Request)
    ensures Parse(session, r).Ok? && Parse(session, r).value.DoEnd? ==> r.UploadEnd?
  {
    hide KeyOf, PartOf;
  }

  lemma OnlyTheEnd(e: Env, s: Store, c: Conn, op: Op)
    ensures !op.DoEnd? ==> CollisionFree(e, s, c, op)
  {
  }

  lemma HandleStep(e: Env, s: Store, c: Conn, r: Request) returns (w: Option<Inode>)
    requires DiskOk(e, s.disk) && ConnOk(s.disk, c) && RequestCollisionFree(e, s, c, r)
    ensures StepOk(e, s, c, w, Handle(e, s, c, r))
  {
    hide DiskOk, ConnOk, FileStep, CollisionFree, Perform;
    w := None;
    if !r.Login? && c.session.Some? && Parse(c.session.value, r).Ok? {
      EndIsParsed(c.session.value, r);
      OnlyTheEnd(e, s, c, Parse(c.session.value, r).value);
      w := PerformStep(e, s, c, c.session.value, Parse(c.session.value, r).value);
    } else {
      IndexStep(e, s, c, Handle(e, s, c, r));
    }
  }
}
