/** What a download returns, while other connections keep working on the store. */
module Downloads {
  import opened Basics
  import opened Disk
  import opened Store
  import opened Transfer
  import opened Handlers
  import opened References
  import opened Runs
  import opened Trees
  import F = FileSystems
  import R = Resolution
  import Protocol

  /** A download opens exactly when the users' map has the key, and holds that content. */
  lemma OpenFindsFile(e: Env, s: Store, c: Conn, session: Session, k: Key, phys: string, fileId: FileId)
    requires Safe(s)
    ensures var o := Perform(e, s, c, session, DoOpen(k, Ok(phys), fileId));
            if k in Files(s) then
              && o.reply == Ready(|Files(s)[k]|) && o.store == s
              && o.conn.download.fileId == fileId && o.conn.download.fd.Some?
              && Content(s.disk, o.conn.download.fd.value) == Files(s)[k]
              && o.conn.download.total == |Files(s)[k]|
            else o.reply == Refused(NotFound)
  {
    assert KeyOk(s, k);
  }

  /** After any run of any number of users that respects the guards, download_begin, whatever PathGuard answers for
      the path, finds (user, path) exactly when the plain map holds it, and opens that content; and whatever happens
      afterwards, that is what the descriptor keeps reading. */
  lemma DownloadSeesPlainMap(e: Env, homes: Homes, w: World, before: seq<Label>, id: int, path: string, k: Key,
                             phys: Result<string>, fileId: FileId, after: seq<Label>)
    requires Usable(e, homes, w) && Respected(e, homes, w, before)
    requires var z := WorldRun(e, homes, w, before);
             && id in z.system.conns && z.system.conns[id].session.Some?
             && KeyOf(z.system.conns[id].session.value, path) == Ok(k)
             && Answered(homes, z.fs, z.system.conns[id].session.value, DownloadBegin(path, phys, fileId))
    requires var z := WorldRun(e, homes, w, before).system;
             CollisionFreeRun(e, Next(e, z, Send(id, DownloadBegin(path, phys, fileId))), after)
    requires forall l | l in after :: LeavesDownload(l, id)
    ensures var z := WorldRun(e, homes, w, before).system;
            var request := DownloadBegin(path, phys, fileId);
            var reply := Handle(e, z.store, z.conns[id], request).reply;
            var last := Run(e, Next(e, z, Send(id, request)), after);
            if k in FilesAfter(e, w.system, before) then
              var content := FilesAfter(e, w.system, before)[k];
              && reply == Ready(|content|)
              && id in last.conns && Serves(last.store.disk, last.conns[id].download, fileId, content)
            else reply == Refused(NotFound)
  {
    hide Handle, Usable, Respected, Safe, Files, FilesAfter, CollisionFreeRun, Run, WorldRun, LeavesDownload, KeyOf;
    hide Answered;
    var z := WorldRun(e, homes, w, before);
    RespectedRun(e, homes, w, before);
    var request := DownloadBegin(path, phys, fileId);
    AnswerIsOpen(e, homes, z, id, path, k, phys, fileId);
    var begun := Next(e, z.system, Send(id, request));
    NextOk(e, z.system, Send(id, request));
    if k in Files(z.system.store) {
      SnapshotDownload(e, begun, after, id);
    }
  }

  /** A world in which every file is readable and its path usable. */
  ghost predicate Usable(e: Env, homes: Homes, w: World) {
    && SystemOk(e, w.system) && Safe(w.system.store)
    && WorldOk(homes, w) && Reachable(homes, w.fs, w.system.store)
  }

  /** A run with true answers of the file system that respects G1, G2 and G4 to G7. */
  ghost predicate Respected(e: Env, homes: Homes, w: World, ls: seq<Label>) {
    && CollisionFreeRun(e, w.system, ls) && SafeRun(e, w.system, ls)
    && AnsweredRun(e, homes, w, ls) && ReachRun(e, homes, w, ls)
  }

  lemma RespectedRun(e: Env, homes: Homes, w: World, ls: seq<Label>)
    requires Usable(e, homes, w) && Respected(e, homes, w, ls)
    ensures var z := WorldRun(e, homes, w, ls);
            && Usable(e, homes, z) && SystemOk(e, z.system)
            && Safe(z.system.store) && Files(z.system.store) == FilesAfter(e, w.system, ls)
  {
    hide SystemOk, Safe, WorldOk, Reachable, CollisionFreeRun, SafeRun, AnsweredRun, ReachRun, Run, WorldRun, Files;
    hide FilesAfter;
    FilesFollowChanges(e, w.system, ls);
    PublishedContentIsRight(e, w.system, ls);
    FilesStayReachable(e, homes, w, ls);
    WorldRunIsRun(e, homes, w, ls);
  }

  lemma FileIsReachable(e: Env, homes: Homes, w: World, k: Key)
    requires Usable(e, homes, w)
    ensures k in Files(w.system.store) ==> Reach(homes, w.fs, k)
    ensures forall i | i in w.system.conns && w.system.conns[i].session.Some? ::
              w.system.conns[i].session.value.userId in homes
  {
    hide SystemOk, Safe, PlainTrees;
  }

  /** PathGuard's answer for a good path: the place, or NotFound when its directory is missing. */
  lemma AnswerIs(homes: Homes, fs: F.FileSystem, session: Session, path: string, k: Key, phys: Result<string>,
                 fileId: FileId)
    requires PlainTrees(homes, fs) && session.userId in homes && KeyOf(session, path) == Ok(k)
    requires Answered(homes, fs, session, DownloadBegin(path, phys, fileId))
    ensures if Reach(homes, fs, k) then phys.Ok? else phys == Err(NotFound)
  {
    hide KeyOf, Existing, PlainTrees, R.AsText;
    assert phys == R.AsText(Existing(homes, fs, k));
    PlaceOrNothing(homes, fs, k);
    AsTextOk(Existing(homes, fs, k));
  }

  lemma AsTextOk(r: Result<F.Path>)
    ensures R.AsText(r).Ok? <==> r.Ok?
    ensures r.Err? ==> R.AsText(r) == Err(r.code)
  {
  }

  lemma PlaceOrNothing(homes: Homes, fs: F.FileSystem, k: Key)
    requires PlainTrees(homes, fs)
    ensures if Reach(homes, fs, k) then Existing(homes, fs, k).Ok? else Existing(homes, fs, k) == Err(NotFound)
  {
    if k.user in homes {
      PlainPlace(homes, fs, k);
    }
  }

  lemma AnswerIsOpen(e: Env, homes: Homes, w: World, id: int, path: string, k: Key, phys: Result<string>,
                     fileId: FileId)
    requires Usable(e, homes, w) && id in w.system.conns && w.system.conns[id].session.Some?
    requires KeyOf(w.system.conns[id].session.value, path) == Ok(k)
    requires Answered(homes, w.fs, w.system.conns[id].session.value, DownloadBegin(path, phys, fileId))
    ensures var o := Handle(e, w.system.store, w.system.conns[id], DownloadBegin(path, phys, fileId));
            if k in Files(w.system.store) then
              && o.reply == Ready(|Files(w.system.store)[k]|)
              && Serves(o.store.disk, o.conn.download, fileId, Files(w.system.store)[k])
            else o.reply == Refused(NotFound)
  {
    hide Handle, KeyOf, Answered, Reach, Files, Safe, SystemOk, PlainTrees, Reachable;
    FileIsReachable(e, homes, w, k);
    AnswerIs(homes, w.fs, w.system.conns[id].session.value, path, k, phys, fileId);
    if phys.Ok? {
      RequestFindsFile(e, w.system.store, w.system.conns[id], path, k, phys.value, fileId);
    } else {
      OpenRefused(e, w.system.store, w.system.conns[id], path, k, phys.code, fileId);
    }
  }

  lemma OpenRefused(e: Env, s: Store, c: Conn, path: string, k: Key, code: ErrorCode, fileId: FileId)
    requires c.session.Some? && KeyOf(c.session.value, path) == Ok(k)
    ensures Handle(e, s, c, DownloadBegin(path, Err(code), fileId)).reply == Refused(code)
  {
    hide KeyOf;
  }

  /** The same for the request as the client sends it. */
  lemma RequestFindsFile(e: Env, s: Store, c: Conn, path: string, k: Key, phys: string, fileId: FileId)
    requires Safe(s) && c.session.Some? && KeyOf(c.session.value, path) == Ok(k)
    ensures var o := Handle(e, s, c, DownloadBegin(path, Ok(phys), fileId));
            if k in Files(s) then
              o.reply == Ready(|Files(s)[k]|) && Serves(o.store.disk, o.conn.download, fileId, Files(s)[k])
            else o.reply == Refused(NotFound)
  {
    OpenFindsFile(e, s, c, c.session.value, k, phys, fileId);
    hide Perform, KeyOf;
    assert Parse(c.session.value, DownloadBegin(path, Ok(phys), fileId)) == Ok(DoOpen(k, Ok(phys), fileId));
  }

  /** The download reads exactly `content`. */
  predicate Serves(d: Disk, dl: Download, fileId: FileId, content: Bytes) {
    && dl.fileId == fileId && dl.total == |content|
    && dl.fd.Some? && Content(d, dl.fd.value) == content
  }

  /** One download_chunk: a non-empty piece of the content from the offset, within the frame limit. */
  lemma ChunkIsSlice(e: Env, s: Store, c: Conn, fileId: FileId, content: Bytes, offset: U64, length: U32, short: nat)
    requires Serves(s.disk, c.download, fileId, content) && fileId != []
    requires 1 <= e.config.chunkSize <= Protocol.MAX_FRAME_SIZE - 64
    ensures var reply := OnDownloadChunk(e, s, c, fileId, offset, length, short);
            if offset >= |content| then reply == Eof
            else
              && reply.Data? && reply.offset == offset && 0 < |reply.data|
              && offset + |reply.data| <= |content|
              && reply.data == content[offset..offset + |reply.data|]
              && 40 + |reply.data| <= Protocol.MAX_FRAME_SIZE
  {
  }

  // ---------------------------------------------------------------- the whole loop, with interference

  /** What other connections do before the next chunk request, and how short its pread comes back. */
  datatype Turn = Turn(others: seq<Label>, short: nat)

  /** CloudClient::get's loop: what it has written after the given turns. */
  function Fetch(e: Env, y: System, id: int, fileId: FileId, size: nat, chunk: U32, got: Bytes, turns: seq<Turn>): Bytes
    decreases |turns|
  {
    if turns == [] || |got| >= size then got
    else
      var z := Run(e, y, turns[0].others);
      if id !in z.conns || |got| >= TWO_TO_THE_64 then got
      else
        match OnDownloadChunk(e, z.store, z.conns[id], fileId, |got|, chunk, turns[0].short)
        case Data(_, data) => Fetch(e, z, id, fileId, size, chunk, got + data, turns[1..])
        case _ => got
  }

  /** The other connections' steps are collision-free and leave this download alone. */
  ghost predicate Undisturbed(e: Env, y: System, id: int, turns: seq<Turn>)
    decreases |turns|
  {
    turns != [] ==>
      && CollisionFreeRun(e, y, turns[0].others)
      && (forall l | l in turns[0].others :: LeavesDownload(l, id))
      && Undisturbed(e, Run(e, y, turns[0].others), id, turns[1..])
  }

  /** What get has written is always a prefix of the content at open time, and as many turns as the content
      has bytes are enough to write all of it. */
  lemma {:induction false} FetchIsExact(e: Env, y: System, id: int, fileId: FileId, content: Bytes, chunk: U32,
                                        got: Bytes, turns: seq<Turn>)
    requires SystemOk(e, y) && id in y.conns && Serves(y.store.disk, y.conns[id].download, fileId, content)
    requires fileId != [] && 1 <= e.config.chunkSize <= Protocol.MAX_FRAME_SIZE - 64 && |content| < TWO_TO_THE_64
    requires got <= content && Undisturbed(e, y, id, turns)
    ensures var r := Fetch(e, y, id, fileId, |content|, chunk, got, turns);
            r <= content && (|turns| >= |content| - |got| ==> r == content)
    decreases |turns|
  {
    hide SystemOk, CollisionFreeRun, Run, OnDownloadChunk, LeavesDownload;
    if turns != [] && |got| < |content| {
      var others := turns[0].others;
      PublishedContentIsRight(e, y, others);
      SnapshotDownload(e, y, others, id);
      var z := Run(e, y, others);
      ChunkIsSlice(e, z.store, z.conns[id], fileId, content, |got|, chunk, turns[0].short);
      var data := OnDownloadChunk(e, z.store, z.conns[id], fileId, |got|, chunk, turns[0].short).data;
      assert got + data == content[..|got| + |data|];
      FetchIsExact(e, z, id, fileId, content, chunk, got + data, turns[1..]);
    }
  }
}
