/** One connection's requests as functions from state to state and reply (src/connection.cpp). */
module Handlers {
  import opened Basics
  import opened Disk
  import opened Store
  import opened Transfer
  import Paths
  import Protocol
  import Text

  /** What a connection remembers between requests; `session` is None before login and after logout. */
  datatype Conn = Conn(session: Option<Session>, upload: Upload, download: Download)

  const FRESH_CONN := Conn(None, NO_UPLOAD, NO_DOWNLOAD)

  /** A client's request, with what the physical user tree answers while it is served: `phys` is the
      resolved path or the refusal of PathGuard, `made` and `moved` are the outcomes of mkdir and rename. */
  datatype Request =
    | Login(session: Session)
    | Logout
    | Mkdir(path: string, phys: Result<string>, made: Result<()>)
    | Rm(path: string, phys: Result<string>, node: Node)
    | Rename(path: string, to: string, phys: Result<string>, moved: Result<nat>)
    | InstantQuery(md5: Md5, size: U64)
    | Instant(path: string, phys: Result<string>, destExists: bool, claim: Claim, overwrite: bool)
    | UploadBegin(path: string, phys: Result<string>, md5: Md5, size: U64, fileId: FileId)
    | UploadChunk(fileId: FileId, offset: U64, data: Bytes)
    | UploadEnd
    | DownloadBegin(path: string, phys: Result<string>, fileId: FileId)
    | DownloadChunk(fileId: FileId, offset: U64, length: U32, short: nat)

  /** The same request once its paths are normalised: the keys and the part it is about. */
  datatype Op =
    | DoLogin(session: Session)
    | DoLogout
    | DoMkdir(key: Key, phys: Result<string>, made: Result<()>)
    | DoRm(key: Key, phys: Result<string>, node: Node)
    | DoRename(key: Key, to: Key, phys: Result<string>, moved: Result<nat>)
    | DoQuery(md5: Md5, size: U64)
    | DoInstant(key: Key, phys: Result<string>, destExists: bool, claim: Claim, overwrite: bool)
    | DoBegin(key: Key, part: Result<PartName>, md5: Md5, size: U64, fileId: FileId)
    | DoChunk(fileId: FileId, offset: U64, data: Bytes)
    | DoEnd
    | DoOpen(key: Key, phys: Result<string>, fileId: FileId)
    | DoRead(fileId: FileId, offset: U64, length: U32, short: nat)

  /** An answer; for a chunk that was written Done stands for no answer at all. */
  datatype Reply =
    | Done
    | Refused(code: ErrorCode)
    | Miss
    | Hit(challenge: Challenge)
    | Begun(received: U64)
    | Ready(total: nat)
    | Data(offset: U64, data: Bytes)
    | Eof

  datatype Outcome = Outcome(store: Store, conn: Conn, reply: Reply)

  function Refuse(s: Store, c: Conn, code: ErrorCode): Outcome {
    Outcome(s, c, Refused(code))
  }

  function ReplyTo(error: Option<ErrorCode>): Reply {
    if error.Some? then Refused(error.value) else Done
  }

  // ---------------------------------------------------------------- paths

  /** The key a client's path stands for, or the refusal of normalizeLogical. */
  function KeyOf(session: Session, path: string): Result<Key> {
    match Paths.Normalize(path)
    case Err(e) => Err(e)
    case Ok(logical) => Ok(Key(session.userId, "/" + logical))
  }

  function PartOf(session: Session, phys: Result<string>, m: Md5): Result<PartName> {
    match phys
    case Err(e) => Err(e)
    case Ok(path) => Ok(PartName(session.username, m, Text.BaseName(path)))
  }

  function Parse(session: Session, r: Request): Result<Op> {
    match r
    case Login(new_session) => Ok(DoLogin(new_session))
    case Logout => Ok(DoLogout)
    case Mkdir(path, phys, made) =>
      var k := KeyOf(session, path);
      if phys.Err? then Err(phys.code) else if k.Err? then Err(k.code) else Ok(DoMkdir(k.value, phys, made))
    case Rm(path, phys, node) =>
      var k := KeyOf(session, path);
      if k.Err? then Err(k.code) else Ok(DoRm(k.value, phys, node))
    case Rename(path, to, phys, moved) =>
      var k, l := KeyOf(session, path), KeyOf(session, to);
      if k.Err? then Err(k.code) else if l.Err? then Err(l.code) else Ok(DoRename(k.value, l.value, phys, moved))
    case InstantQuery(m, size) => Ok(DoQuery(m, size))
    case Instant(path, phys, destExists, claim, overwrite) =>
      var k := KeyOf(session, path);
      if k.Err? then Err(k.code) else Ok(DoInstant(k.value, phys, destExists, claim, overwrite))
    case UploadBegin(path, phys, m, size, fileId) =>
      var k := KeyOf(session, path);
      if k.Err? then Err(k.code) else Ok(DoBegin(k.value, PartOf(session, phys, m), m, size, fileId))
    case UploadChunk(fileId, offset, data) => Ok(DoChunk(fileId, offset, data))
    case UploadEnd => Ok(DoEnd)
    case DownloadBegin(path, phys, fileId) =>
      var k := KeyOf(session, path);
      if k.Err? then Err(k.code) else Ok(DoOpen(k.value, phys, fileId))
    case DownloadChunk(fileId, offset, length, short) => Ok(DoRead(fileId, offset, length, short))
  }

  // ---------------------------------------------------------------- names

  function OnMkdir(s: Store, c: Conn, k: Key, phys: Result<string>, made: Result<()>): Outcome {
    if phys.Err? then Refuse(s, c, phys.code)
    else if made.Err? then Refuse(s, c, made.code)
    else Outcome(IndexDir(s, k), c, Done)
  }

  function OnRm(s: Store, c: Conn, k: Key, phys: Result<string>, node: Node): Outcome {
    if k.path == "/" then Refuse(s, c, Forbidden)
    else if phys.Err? then Refuse(s, c, phys.code)
    else Outcome(RemovePath(s, k, node), c, Done)
  }

  function OnRename(s: Store, c: Conn, from: Key, to: Key, phys: Result<string>, moved: Result<nat>): Outcome {
    if phys.Err? then Refuse(s, c, phys.code)
    else
      var (s', error) := RenamePath(s, from, to, moved);
      Outcome(s', c, ReplyTo(error))
  }

  // ---------------------------------------------------------------- instant upload

  function OnInstantQuery(e: Env, s: Store, c: Conn, token: Token, m: Md5, size: U64): Outcome {
    match QueryInstant(e, s, token, m, size)
    case Err(code) => Refuse(s, c, code)
    case Ok(None) => Outcome(s, c, Miss)
    case Ok(Some(ch)) => Outcome(IssueChallenge(s, token, m, ch), c, Hit(ch))
  }

  function OnInstant(e: Env, s: Store, c: Conn, token: Token, k: Key, phys: Result<string>,
                     destExists: bool, claim: Claim, overwrite: bool): Outcome
  {
    if phys.Err? then Refuse(s, c, phys.code)
    else
      var (s', error) := InstantUpload(e, s, token, k, claim, destExists, overwrite);
      Outcome(s', c, ReplyTo(error))
  }

  // ---------------------------------------------------------------- upload

  function CloseUpload(c: Conn): Conn {
    c.(upload := c.upload.(fd := None))
  }

  function OnUploadBegin(e: Env, s: Store, c: Conn, k: Key, part: Result<PartName>, m: Md5, size: U64,
                         fileId: FileId): Outcome {
    if part.Err? then Refuse(s, CloseUpload(c), part.code)
    else if BeginRefusal(e, m, size).Some? then Refuse(s, CloseUpload(c), BeginRefusal(e, m, size).value)
    else
      var (disk, up) := BeginUpload(s.disk, part.value, k.path, m, size, fileId);
      Outcome(s.(disk := disk), c.(upload := up), Begun(up.received))
  }

  function ChunkRefusal(c: Conn, fileId: FileId, offset: U64, data: Bytes): Option<ErrorCode> {
    if c.upload.fileId == [] || fileId != c.upload.fileId then Some(BadRequest)
    else WriteRefusal(c.upload, offset, data)
  }

  function OnUploadChunk(s: Store, c: Conn, fileId: FileId, offset: U64, data: Bytes): Outcome {
    if ChunkRefusal(c, fileId, offset, data).Some? then Refuse(s, c, ChunkRefusal(c, fileId, offset, data).value)
    else
      var (disk, up) := WriteChunk(s.disk, c.upload, offset, data);
      Outcome(s.(disk := disk), c.(upload := up), Done)
  }

  function OnUploadEnd(e: Env, s: Store, c: Conn, userId: int): Outcome {
    var refusal := FinishRefusal(e, s.disk, c.upload);
    if refusal.Some? then
      Refuse(s.(disk := AfterRefusedFinish(s.disk, c.upload)), CloseUpload(c), refusal.value)
    else
      Outcome(FinishUpload(s, Key(userId, c.upload.path), c.upload), c.(upload := NO_UPLOAD), Done)
  }

  // ---------------------------------------------------------------- download

  function CloseDownload(c: Conn): Conn {
    c.(download := c.download.(fd := None))
  }

  function OnDownloadBegin(s: Store, c: Conn, k: Key, phys: Result<string>, fileId: FileId): Outcome {
    if phys.Err? then Refuse(s, CloseDownload(c), phys.code)
    else
      match BeginDownload(s, k, fileId)
      case Err(code) => Refuse(s, CloseDownload(c), code)
      case Ok(dl) => Outcome(s, c.(download := dl), Ready(dl.total))
  }

  function OnDownloadChunk(e: Env, s: Store, c: Conn, fileId: FileId, offset: U64, length: U32, short: nat): Reply {
    if c.download.fileId == [] || fileId != c.download.fileId then Refused(BadRequest)
    else if c.download.fd.None? then Refused(BadRequest)
    else
      var want := if length == 0 || length > Protocol.MAX_FRAME_SIZE - 64 then e.config.chunkSize else length;
      var data := ReadChunk(s.disk, c.download, offset, want, short);
      if data == [] then Eof
      else if 40 + |data| > Protocol.MAX_FRAME_SIZE then Refused(PayloadTooLarge)
      else Data(offset, data)
  }

  // ---------------------------------------------------------------- dispatch

  /** A logged-in connection's request once its paths are normalised. */
  function Perform(e: Env, s: Store, c: Conn, session: Session, op: Op): Outcome {
    match op
    case DoLogin(new_session) => Outcome(s, c.(session := Some(new_session)), Done)
    case DoLogout => Outcome(s, c.(session := None), Done)
    case DoMkdir(k, phys, made) => OnMkdir(s, c, k, phys, made)
    case DoRm(k, phys, node) => OnRm(s, c, k, phys, node)
    case DoRename(k, to, phys, moved) => OnRename(s, c, k, to, phys, moved)
    case DoQuery(m, size) => OnInstantQuery(e, s, c, session.token, m, size)
    case DoInstant(k, phys, destExists, claim, overwrite) =>
      OnInstant(e, s, c, session.token, k, phys, destExists, claim, overwrite)
    case DoBegin(k, part, m, size, fileId) => OnUploadBegin(e, s, c, k, part, m, size, fileId)
    case DoChunk(fileId, offset, data) => OnUploadChunk(s, c, fileId, offset, data)
    case DoEnd => OnUploadEnd(e, s, c, session.userId)
    case DoOpen(k, phys, fileId) => OnDownloadBegin(s, c, k, phys, fileId)
    case DoRead(fileId, offset, length, short) =>
      Outcome(s, c, OnDownloadChunk(e, s, c, fileId, offset, length, short))
  }

  /** A request as the client sends it. */
  function Handle(e: Env, s: Store, c: Conn, r: Request): Outcome {
    if r.Login? then Outcome(s, c.(session := Some(r.session)), Done)
    else if c.session.None? then Refuse(s, c, Unauthorized)
    else
      match Parse(c.session.value, r)
      case Err(code) => Refuse(s, c, code)
      case Ok(op) => Perform(e, s, c, c.session.value, op)
  }
}
