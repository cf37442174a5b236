/** What renaming a directory leaves behind: its row becomes a file row (src/transfer.cpp, renameUserPath), so that rm
    and rename of the directory are done from then on without touching the directory or anything in it. */
module RenamedDirectories {
  import opened Basics
  import opened Disk
  import opened Store
  import opened Transfer
  import opened Handlers
  import opened DiskSafety
  import opened References
  import opened Guards
  import opened Runs
  import opened Parts
  import opened Uploads
  import opened Paths
  import opened PathTexts
  import opened Sweeping
  import opened Trees
  import opened Breaches
  import opened TreeBreaches
  import F = FileSystems
  import R = Resolution
  import PlainMap
  import Protocol
  import Text

  // ---------------------------------------------------------------- rm of a physical directory

  /** rm of a physical directory that is done takes the directory and every file under it away if and only if its
      row is no file row. */
  lemma RmEmpties(e: Env, homes: Homes, w: World, l: Label)
    requires WorldOk(homes, w) && AnsweredStep(homes, w, l)
    requires Completes(e, w.system, l) && OpOf(w.system, l).value.DoRm?
    requires Place(homes, w.fs, OpOf(w.system, l).value.key, false).Ok?
    requires Place(homes, w.fs, OpOf(w.system, l).value.key, false).value in w.fs
    ensures var k, z := OpOf(w.system, l).value.key, WorldNext(e, homes, w, l);
            && k.path == PathText(NamesOf(k))
            && (NothingUnder(z.system.store, k.user, NamesOf(k)) <==>
                  !IsFile(w.system.store, k) || NothingUnder(w.system.store, k.user, NamesOf(k)))
            && (Place(homes, w.fs, k, false).value !in z.fs && NothingUnder(z.system.store, k.user, NamesOf(k)) <==>
                  !IsFile(w.system.store, k))
  {
    hide PlainTrees, Perform, Parse, Answered, Place, NodeAt, PathsNormal, GoodKey, NothingUnder, RemovePath, TreeAfter;
    var c, op := w.system.conns[l.id], OpOf(w.system, l).value;
    ParsedIsGood(homes, w.fs, c.session.value, l.request);
    DoneIsAccepted(e, w.system.store, c, c.session.value, op);
    DirectoryThere(homes, w.fs, c.session.value, op.key);
    DirectoryGoes(e, homes, w, l);
    PerformIsNext(e, w.system, l);
    RmIs(e, w.system.store, c, c.session.value, op);
    assert NormalPath(op.key.path) by { GoodPath(c.session.value, op.key); }
    NormalNames(op.key);
    RemoveEmpties(w.system.store, op.key.user, NamesOf(op.key));
  }

  lemma GoodPath(session: Session, k: Key)
    requires GoodKey(session, k)
    ensures NormalPath(k.path)
  {
  }

  lemma RmIs(e: Env, s: Store, c: Conn, session: Session, op: Op)
    requires op.DoRm? && Perform(e, s, c, session, op).reply == Done
    ensures Perform(e, s, c, session, op).store == RemovePath(s, op.key, op.node)
  {
    hide RemovePath;
  }

  /** In every exact world: rm of a directory whose row is a file row is done, takes that row away and nothing
      else. */
  lemma RemovedInNameOnly(e: Env, homes: Homes, w: World, l: Label)
    requires WorldOk(homes, w) && AnsweredStep(homes, w, l) && SystemOk(e, w.system)
    requires CollisionFreeStep(e, w.system, l)
    requires Exact(w.system.store) && Completes(e, w.system, l) && OpOf(w.system, l).value.DoRm?
    requires IsFile(w.system.store, OpOf(w.system, l).value.key)
    requires Place(homes, w.fs, OpOf(w.system, l).value.key, false).Ok?
    requires Place(homes, w.fs, OpOf(w.system, l).value.key, false).value in w.fs
    ensures var k, z := OpOf(w.system, l).value.key, WorldNext(e, homes, w, l);
            && Exact(z.system.store) && Files(z.system.store) == Files(w.system.store) - {k} && z.fs == w.fs
            && !IsFile(z.system.store, k)
  {
    hide WorldOk, SystemOk, Exact, AnsweredStep, CollisionFreeStep, Perform, Parse, Place, RemovePath, Files, TreeAfter;
    var c, op := w.system.conns[l.id], OpOf(w.system, l).value;
    DirectoryGoes(e, homes, w, l);
    ExactIsSafe(w.system.store);
    StepOutcome(e, w.system, l);
    PerformIsNext(e, w.system, l);
    RmIs(e, w.system.store, c, c.session.value, op);
    RowRemoved(w.system.store, op.key, op.node);
  }

  lemma RowRemoved(s: Store, k: Key, node: Node)
    ensures !IsFile(RemovePath(s, k, node), k)
  {
  }

  // ---------------------------------------------------------------- guarded steps of a logged-in user

  /** A world that is in order, with the user logged in on connection `id`. */
  ghost predicate InOrder(e: Env, homes: Homes, w: World, id: int, session: Session) {
    && Quiet(e, w.system) && WorldOk(homes, w) && Exact(w.system.store) && Reachable(homes, w.fs, w.system.store)
    && id in w.system.conns && w.system.conns[id].session == Some(session)
  }

  /** A step that the file system answers truly, that respects G1 to G7 and meets no collision. */
  ghost predicate Proper(e: Env, homes: Homes, w: World, l: Label) {
    && AnsweredStep(homes, w, l) && CollisionFreeStep(e, w.system, l)
    && ExactStep(e, w.system, l) && ReachGuard(e, homes, w, l)
  }

  lemma ProperStep(e: Env, homes: Homes, w: World, l: Label, session: Session)
    requires l.Send? && InOrder(e, homes, w, l.id, session) && Proper(e, homes, w, l)
    requires !l.request.Login? && !l.request.Logout?
    ensures InOrder(e, homes, WorldNext(e, homes, w, l), l.id, session)
    ensures Files(WorldNext(e, homes, w, l).system.store) == Apply(Files(w.system.store), ChangeAt(e, w.system, l))
  {
    hide WorldOk, Exact, Reachable, SystemOk, PartsApart, AnsweredStep, CollisionFreeStep, ReachGuard, Handle, Perform;
    hide Files;
    hide TreeAfter, ChangeAt, ExactStep;
    ExactIsSafe(w.system.store);
    StepOutcome(e, w.system, l);
    GuardsAreExact(e, w.system, l);
    ExactIsSafe(Next(e, w.system, l).store);
    StepKeepsWorld(e, homes, w, l);
    StepReaches(e, homes, w, l);
    Uploads.QuietStep(e, w.system, l);
    SessionStays(e, w.system, l);
  }

  lemma SessionStays(e: Env, y: System, l: Label)
    requires l.Send? && l.id in y.conns && !l.request.Login? && !l.request.Logout?
    ensures l.id in Next(e, y, l).conns && Next(e, y, l).conns[l.id].session == y.conns[l.id].session
  {
    hide RemovePath, RenamePath, InstantUpload, FinishUpload, QueryInstant, FinishRefusal, AfterRefusedFinish;
    hide ChunkRefusal;
    hide BeginUpload, BeginRefusal, WriteChunk, BeginDownload, KeyOf, PartOf, OnDownloadChunk;
  }

  lemma HomeOf(e: Env, homes: Homes, w: World, id: int, session: Session)
    requires InOrder(e, homes, w, id, session)
    ensures PlainTrees(homes, w.fs) && session.userId in homes && SystemOk(e, w.system)
  {
    hide PlainTrees, SystemOk, PathsNormal, Exact, Reachable;
  }

  /** mkdir in a directory that is there, of a name that is not. */
  lemma MkdirDone(e: Env, homes: Homes, w: World, id: int, session: Session, path: string, k: Key)
    requires InOrder(e, homes, w, id, session) && KeyOf(session, path) == Ok(k) && Reach(homes, w.fs, k)
    requires MadeAt(w.fs, Place(homes, w.fs, k, false).value) == Ok(()) && LandsOnNoFile(w.system.store, k)
    ensures var p := Place(homes, w.fs, k, false).value;
            var l := Send(id, Mkdir(path, Ok(PathText(p)), Ok(())));
            var z := WorldNext(e, homes, w, l);
            && Proper(e, homes, w, l) && Completes(e, w.system, l) && InOrder(e, homes, z, id, session)
            && Files(z.system.store) == Files(w.system.store)
            && z.system.store == IndexDir(w.system.store, k) && z.fs == w.fs[p := F.Directory]
  {
    hide KeyOf, Place, InOrder, IndexDir, MadeAt, Files;
    var p := Place(homes, w.fs, k, false).value;
    var l := Send(id, Mkdir(path, Ok(PathText(p)), Ok(())));
    assert id in w.system.conns && w.system.conns[id].session == Some(session) by {
      LoggedIn(e, homes, w, id, session);
    }
    assert OpOf(w.system, l) == Some(DoMkdir(k, Ok(PathText(p)), Ok(())));
    assert Proper(e, homes, w, l);
    ProperStep(e, homes, w, l, session);
  }

  lemma LoggedIn(e: Env, homes: Homes, w: World, id: int, session: Session)
    requires InOrder(e, homes, w, id, session)
    ensures id in w.system.conns && w.system.conns[id].session == Some(session)
  {
  }

  /** A rename of a directory with no file in it, to a name that is not there. */
  lemma RenameDone(e: Env, homes: Homes, w: World, id: int, session: Session, path: string, to: string, k: Key, l: Key,
                   size: nat)
    requires InOrder(e, homes, w, id, session) && KeyOf(session, path) == Ok(k) && KeyOf(session, to) == Ok(l)
    requires Existing(homes, w.fs, k).Ok? && Reach(homes, w.fs, l)
    requires MoveRefusal(w.fs, Existing(homes, w.fs, k).value, Place(homes, w.fs, l, false).value).None?
    requires !IsFile(w.system.store, k) && LandsOnNoFile(w.system.store, l) && LeavesNoFile(w.system.store, k)
    ensures var p, q := Existing(homes, w.fs, k).value, Place(homes, w.fs, l, false).value;
            var step := Send(id, Rename(path, to, Ok(PathText(q)), Ok(size)));
            var z := WorldNext(e, homes, w, step);
            && Proper(e, homes, w, step) && Completes(e, w.system, step) && InOrder(e, homes, z, id, session)
            && Files(z.system.store) == Files(w.system.store)
            && z.system.store == RenameOther(w.system.store, k, l, size) && z.fs == Moved(w.fs, p, q)
  {
    hide KeyOf, Place, Existing, InOrder, RenameOther, MoveRefusal, Files, LeavesNoFile, Moved;
    var q := Place(homes, w.fs, l, false).value;
    var step := Send(id, Rename(path, to, Ok(PathText(q)), Ok(size)));
    assert id in w.system.conns && w.system.conns[id].session == Some(session) by {
      LoggedIn(e, homes, w, id, session);
    }
    assert OpOf(w.system, step) == Some(DoRename(k, l, Ok(PathText(q)), Ok(size)));
    assert Proper(e, homes, w, step);
    ProperStep(e, homes, w, step, session);
  }

  /** rm of a directory whose row is a file row without content. */
  lemma RmDone(e: Env, homes: Homes, w: World, id: int, session: Session, path: string, k: Key)
    requires InOrder(e, homes, w, id, session) && KeyOf(session, path) == Ok(k) && k.path != "/"
    requires Reach(homes, w.fs, k) && Place(homes, w.fs, k, false).value in w.fs && IsFile(w.system.store, k)
    ensures var p := Place(homes, w.fs, k, false).value;
            var l := Send(id, Rm(path, Ok(PathText(p)), Directory));
            var z := WorldNext(e, homes, w, l);
            && Proper(e, homes, w, l) && Completes(e, w.system, l) && InOrder(e, homes, z, id, session)
            && Files(z.system.store) == Files(w.system.store) - {k} && z.fs == w.fs && !IsFile(z.system.store, k)
  {
    hide KeyOf, Place, InOrder, RemovePath, Files, NodeAt, IsFile;
    var p := Place(homes, w.fs, k, false).value;
    var l := Send(id, Rm(path, Ok(PathText(p)), Directory));
    assert id in w.system.conns && w.system.conns[id].session == Some(session) by {
      LoggedIn(e, homes, w, id, session);
    }
    assert OpOf(w.system, l) == Some(DoRm(k, Ok(PathText(p)), Directory));
    HomeOf(e, homes, w, id, session);
    assert NodeAt(w.fs, p) == Directory by { KeyIsGood(session, path); DirectoryThere(homes, w.fs, session, k); }
    assert Proper(e, homes, w, l);
    ProperStep(e, homes, w, l, session);
    assert WorldOk(homes, w) && Exact(w.system.store) by { OrderIs(e, homes, w, id, session); }
    RemovedInNameOnly(e, homes, w, l);
  }

  lemma OrderIs(e: Env, homes: Homes, w: World, id: int, session: Session)
    requires InOrder(e, homes, w, id, session)
    ensures WorldOk(homes, w) && Exact(w.system.store) && Quiet(e, w.system) && Reachable(homes, w.fs, w.system.store)
  {
    hide WorldOk, Exact, Quiet, Reachable;
  }

  // ---------------------------------------------------------------- a put on that connection

  /** The rows of the other keys are as before. */
  ghost predicate RowsKept(s: Store, t: Store, k: Key) {
    forall l | l != k :: (l in t.rows <==> l in s.rows) && (l in s.rows ==> t.rows[l] == s.rows[l])
  }

  lemma AnswerOf(e: Env, y: System, l: Label)
    requires OpOf(y, l).Some?
    ensures Handle(e, y.store, y.conns[l.id], l.request).reply ==
              Perform(e, y.store, y.conns[l.id], y.conns[l.id].session.value, OpOf(y, l).value).reply
  {
    hide Perform;
  }

  /** upload_begin in a directory that is there. */
  lemma BeginDone(e: Env, homes: Homes, w: World, id: int, j: Job, fileId: FileId)
    requires InOrder(e, homes, w, id, j.session) && JobOk(e, j)
    requires R.AsText(Place(homes, w.fs, j.key, false)) == Ok(j.phys)
    ensures var l := Send(id, BeginOf(j, fileId));
            var z := WorldNext(e, homes, w, l);
            && Proper(e, homes, w, l) && InOrder(e, homes, z, id, j.session)
            && Answer(e, w.system, id, l.request) == Begun(|Kept(w.system.store.disk, j)|)
            && Holds(z.system, id, j, fileId, Kept(w.system.store.disk, j))
            && Files(z.system.store) == Files(w.system.store) && z.system.store.rows == w.system.store.rows
            && z.fs == w.fs
  {
    hide JobOk, InOrder, Place, Files, Handle, Holds, Kept, Perform, Next, CollisionFreeStep, KeyOf;
    var l := Send(id, BeginOf(j, fileId));
    JobBounds(e, j);
    OrderIs(e, homes, w, id, j.session);
    LoggedIn(e, homes, w, id, j.session);
    BeginHolds(e, w.system, id, j, fileId);
    BeginOp(e, w.system, id, j, fileId);
    BeginIsHonest(e, w.system, id, j, fileId);
    AnswerOf(e, w.system, l);
    assert Answered(homes, w.fs, j.session, l.request) by { JobKey(e, j); }
    assert !Completes(e, w.system, l);
    assert Proper(e, homes, w, l);
    ProperStep(e, homes, w, l, j.session);
    PlainMap.UnfinishedRows(e, w.system, l);
  }

  lemma JobKey(e: Env, j: Job)
    requires JobOk(e, j)
    ensures KeyOf(j.session, j.path) == Ok(j.key)
  {
    hide KeyOf, PartOf;
  }

  /** The whole content in one chunk. */
  lemma ChunkDone(e: Env, homes: Homes, w: World, id: int, j: Job, fileId: FileId)
    requires InOrder(e, homes, w, id, j.session) && Holds(w.system, id, j, fileId, []) && fileId != []
    requires j.content != []
    requires |j.content| < TWO_TO_THE_63
    ensures var l := Send(id, UploadChunk(fileId, 0, j.content));
            var z := WorldNext(e, homes, w, l);
            && Proper(e, homes, w, l) && Completes(e, w.system, l) && InOrder(e, homes, z, id, j.session)
            && Holds(z.system, id, j, fileId, j.content)
            && Files(z.system.store) == Files(w.system.store) && z.system.store.rows == w.system.store.rows
            && z.fs == w.fs
  {
    hide InOrder, Files, Holds, Next, CollisionFreeStep, Completes, OpOf, ChangeAt, Quiet;
    var l := Send(id, UploadChunk(fileId, 0, j.content));
    OrderIs(e, homes, w, id, j.session);
    LoggedIn(e, homes, w, id, j.session);
    ChunkIs(e, w.system, id, j, fileId);
    assert ChangeAt(e, w.system, l) == Same && Proper(e, homes, w, l) by { WorkIsProper(e, homes, w, l); }
    ProperStep(e, homes, w, l, j.session);
    WorkKeepsTree(e, homes, w, l);
  }

  lemma ChunkIs(e: Env, y: System, id: int, j: Job, fileId: FileId)
    requires Quiet(e, y) && Holds(y, id, j, fileId, []) && fileId != [] && j.content != []
    requires |j.content| < TWO_TO_THE_63
    ensures var l := Send(id, UploadChunk(fileId, 0, j.content));
            && id in y.conns && OpOf(y, l) == Some(DoChunk(fileId, 0, j.content)) && Completes(e, y, l)
            && CollisionFreeStep(e, y, l)
            && Holds(Next(e, y, l), id, j, fileId, j.content) && Next(e, y, l).store.rows == y.store.rows
  {
    hide Quiet, Handle, Perform, CollisionFreeStep;
    var l := Send(id, UploadChunk(fileId, 0, j.content));
    assert [] + j.content == j.content;
    ChunkHolds(e, y, id, j, fileId, [], j.content);
    OwnChunk(e, y, id, j, fileId, [], j.content);
    assert OpOf(y, l) == Some(DoChunk(fileId, 0, j.content));
    hide Holds, Next;
    AnswerOf(e, y, l);
    ChunkCollidesNot(e, y, id, fileId, j.content);
    PerformIsNext(e, y, l);
    PlainMap.QuietRows(e, y.store, y.conns[id], y.conns[id].session.value, OpOf(y, l).value);
  }

  /** A chunk is under no guard and changes nothing. */
  lemma WorkIsProper(e: Env, homes: Homes, w: World, l: Label)
    requires l.Send? && l.request.UploadChunk? && CollisionFreeStep(e, w.system, l)
    requires OpOf(w.system, l).Some? && OpOf(w.system, l).value.DoChunk?
    ensures Proper(e, homes, w, l) && ChangeAt(e, w.system, l) == Same
  {
    hide Perform, CollisionFreeStep, OpOf;
  }

  lemma WorkKeepsTree(e: Env, homes: Homes, w: World, l: Label)
    requires OpOf(w.system, l).Some? && OpOf(w.system, l).value.DoChunk?
    ensures TreeAfter(e, homes, w, l) == w.fs
  {
    hide Perform, OpOf;
  }

  lemma ChunkCollidesNot(e: Env, y: System, id: int, fileId: FileId, data: Bytes)
    ensures CollisionFreeStep(e, y, Send(id, UploadChunk(fileId, 0, data)))
  {
  }

  /** upload_end of the whole content, when no content is stored. */
  lemma EndDone(e: Env, homes: Homes, w: World, id: int, j: Job, fileId: FileId)
    requires InOrder(e, homes, w, id, j.session) && JobOk(e, j) && Holds(w.system, id, j, fileId, j.content)
    requires Reach(homes, w.fs, j.key) && Files(w.system.store) == map[]
    ensures var l := Send(id, UploadEnd);
            var z := WorldNext(e, homes, w, l);
            && Proper(e, homes, w, l) && Completes(e, w.system, l) && InOrder(e, homes, z, id, j.session)
            && Files(z.system.store) == map[j.key := j.content]
            && RowsKept(w.system.store, z.system.store, j.key) && z.fs == w.fs
  {
    hide JobOk, InOrder, Reach, Files, Handle, Holds, Next, CollisionFreeStep, ChangeAt, Perform, Completes, Place;
    hide RowsKept;
    hide OpOf, ExactStep;
    var l := Send(id, UploadEnd);
    OrderIs(e, homes, w, id, j.session);
    LoggedIn(e, homes, w, id, j.session);
    HoldsConn(w.system, id, j, fileId, j.content);
    OwnKey(e, j);
    NothingStored(e, w.system, id);
    EndOutcome(e, w.system, id, j, fileId, j.content);
    EndIs(e, w.system, id);
    hide EndKey;
    assert Proper(e, homes, w, l) by { EndProper(e, homes, w, id, j); }
    ProperStep(e, homes, w, l, j.session);
    EndKeepsTree(e, homes, w, l);
    assert Apply(map[], Put(j.key, j.content)) == map[j.key := j.content];
  }

  lemma EndProper(e: Env, homes: Homes, w: World, id: int, j: Job)
    requires id in w.system.conns && w.system.conns[id].session == Some(j.session)
    requires CollisionFreeStep(e, w.system, Send(id, UploadEnd)) && OpOf(w.system, Send(id, UploadEnd)) == Some(DoEnd)
    requires EndKey(w.system.conns[id], j.session) == j.key && Reach(homes, w.fs, j.key)
    ensures Proper(e, homes, w, Send(id, UploadEnd))
  {
    hide Perform, CollisionFreeStep, OpOf, EndKey, Reach;
  }

  lemma NothingStored(e: Env, y: System, id: int)
    requires SystemOk(e, y) && Exact(y.store) && Files(y.store) == map[]
    ensures CollisionFreeStep(e, y, Send(id, UploadEnd))
  {
    hide FinishRefusal, KeyOf;
    forall m | m in y.store.disk.objects && m != "" ensures false {
      var k := PlainMap.StoredIsKnown(e, y.store, m);
    }
    if id in y.conns {
      assert ConnOk(y.store.disk, y.conns[id]);
    }
  }

  /** What upload_end is to the state machine, and what it leaves of the other rows. */
  lemma EndIs(e: Env, y: System, id: int)
    requires id in y.conns && y.conns[id].session.Some?
    ensures var l := Send(id, UploadEnd);
            && OpOf(y, l) == Some(DoEnd)
            && (Completes(e, y, l) <==> Handle(e, y.store, y.conns[id], UploadEnd).reply == Done)
            && (Completes(e, y, l) ==>
                  RowsKept(y.store, Next(e, y, l).store, EndKey(y.conns[id], y.conns[id].session.value)))
  {
    hide FinishRefusal, AfterRefusedFinish, PartBytes, PublishFile, DropRef;
  }

  // ---------------------------------------------------------------- the run

  /** The fresh server with one logged-in user, whose root is empty. */
  function FreshWorld(id: int, session: Session, home: F.Path): World {
    World(Alone(id, EMPTY, session), TreeOf(home), map[])
  }

  function MkdirLabel(id: int, home: F.Path, d: string): Label {
    Send(id, Mkdir(d, Ok(PathText(home + [d])), Ok(())))
  }

  function RmLabel(id: int, home: F.Path, g: string): Label {
    Send(id, Rm(g, Ok(PathText(home + [g])), Directory))
  }

  /** The put of `b` to g/f, in chunks that hold all of it. */
  function PutJob(e: Env, session: Session, home: F.Path, g: string, f: string, b: Bytes): Job {
    var phys := PathText(home + [g, f]);
    Job(session, Text.Join([g, f], '/'), phys, NameKey(session.userId, [g, f]),
        PartName(session.username, e.hash(b), Text.BaseName(phys)), e.hash(b), b, |b| % TWO_TO_THE_32)
  }

  lemma PutJobOk(e: Env, session: Session, home: F.Path, g: string, f: string, b: Bytes)
    requires NormalForm([g, f]) && |e.hash(b)| == 32
    requires b != [] && |b| <= e.config.maxUpload && |b| <= Protocol.MAX_FRAME_SIZE - 40
    ensures JobOk(e, PutJob(e, session, home, g, f, b))
  {
    hide NameKey, KeyOf, Text.BaseName;
    NameKeyIs(session, [g, f]);
  }

  lemma FreshIsInOrder(e: Env, id: int, session: Session, home: F.Path)
    requires forall c | c in home :: F.FileName(c)
    ensures var w := FreshWorld(id, session, home);
            InOrder(e, map[session.userId := home], w, id, session) && Files(w.system.store) == map[]
  {
    hide TreeOf, PlainTrees, DiskOk;
    TreeIsPlain(session.userId, home, home);
    EmptyIsGood(e);
    AloneIsGood(e, id, EMPTY, session);
    hide Exact;
  }

  /** Where a name in the root is placed. */
  lemma NamePlace(homes: Homes, fs: F.FileSystem, user: int, names: seq<string>)
    requires PlainTrees(homes, fs) && user in homes && NormalForm(names) && homes[user] + F.Parent(names) in fs
    ensures var k := NameKey(user, names);
            && Place(homes, fs, k, false) == Ok(homes[user] + names) && Reach(homes, fs, k)
            && Existing(homes, fs, k) == Ok(homes[user] + names)
  {
    hide PlainTrees, NamesOf, Place, Existing;
    NameKeyIs(Session(user, "", ""), names);
    PlainPlace(homes, fs, NameKey(user, names));
  }

  lemma RootName(home: F.Path, d: string)
    ensures home + F.Parent([d]) == home && F.Parent(home + [d]) == home && home + [d] != []
  {
    assert F.Parent([d]) == [];
  }

  /** After mkdir d and rename d to g: the row of g is a file row, and g is a directory on disk. */
  ghost predicate AfterRename(e: Env, homes: Homes, w: World, id: int, session: Session, home: F.Path, g: string) {
    && InOrder(e, homes, w, id, session) && Files(w.system.store) == map[] && w.system.store.disk == EMPTY.disk
    && homes == map[session.userId := home] && home in w.fs && home + [g] in w.fs
    && IsFile(w.system.store, NameKey(session.userId, [g]))
  }

  lemma FirstSteps(e: Env, id: int, session: Session, home: F.Path, d: string, g: string, size: nat)
    requires (forall c | c in home :: F.FileName(c)) && Clean(d) && Clean(g) && d != g
    ensures var homes, w0 := map[session.userId := home], FreshWorld(id, session, home);
            var l1, l2 := MkdirLabel(id, home, d), AwayLabel(id, home, d, g, size);
            var w1 := WorldNext(e, homes, w0, l1);
            && Proper(e, homes, w0, l1) && Completes(e, w0.system, l1)
            && Proper(e, homes, w1, l2) && Completes(e, w1.system, l2)
            && AfterRename(e, homes, WorldNext(e, homes, w1, l2), id, session, home, g)
  {
    hide InOrder, PlainTrees, Proper, Completes, WorldNext, Place, Existing, Files, Moved, TreeOf, KeyOf, NamesOf;
    hide Reach;
    var homes, w0 := map[session.userId := home], FreshWorld(id, session, home);
    var kd, kg := NameKey(session.userId, [d]), NameKey(session.userId, [g]);
    FreshIsInOrder(e, id, session, home);
    OneName(session, d);
    OneName(session, g);
    NormalOne(d);
    NormalOne(g);
    RootName(home, d);
    RootName(home, g);
    TreeIsPlain(session.userId, home, home);
    InTreeOf(home, home);
    NamePlace(homes, w0.fs, session.userId, [d]);
    MkdirPossible(home, d);
    MkdirDone(e, homes, w0, id, session, d, kd);
    var w1 := WorldNext(e, homes, w0, MkdirLabel(id, home, d));
    HomeOf(e, homes, w1, id, session);
    NamePlace(homes, w1.fs, session.userId, [d]);
    NamePlace(homes, w1.fs, session.userId, [g]);
    MovePossible(home, d, g);
    RowsOfMkdir(kd, kg, size);
    RenameDone(e, homes, w1, id, session, d, g, kd, kg, size);
    MovedHas(w1.fs, home + [d], home + [g], home) by {
      WellFormedHome(homes, w1.fs);
      NotThere(w1.fs, home + [d], home + [g]);
    }
    MovedHas(w1.fs, home + [d], home + [g], home + [g]) by {
      WellFormedHome(homes, w1.fs);
      NotThere(w1.fs, home + [d], home + [g]);
    }
    assert home + [d] + (home + [g])[|home + [g]|..] == home + [d];
    assert !(home + [d] <= home);
  }

  lemma NormalOne(d: string)
    requires Clean(d)
    ensures NormalForm([d])
  {
  }

  lemma WellFormedHome(homes: Homes, fs: F.FileSystem)
    requires PlainTrees(homes, fs)
    ensures F.WellFormed(fs)
  {
    hide F.WellFormed;
  }

  lemma MkdirPossible(home: F.Path, d: string)
    ensures MadeAt(TreeOf(home), home + [d]) == Ok(())
  {
    InTreeOf(home, home + [d]);
    InTreeOf(home, home);
    OnlyDirectoriesThere(home, home);
    assert F.Parent(home + [d]) == home;
    hide TreeOf;
  }

  lemma MovePossible(home: F.Path, d: string, g: string)
    requires d != g
    ensures var fs := TreeOf(home)[home + [d] := F.Directory];
            MoveRefusal(fs, home + [d], home + [g]).None? && home in fs && home + [d] in fs
  {
    InTreeOf(home, home + [g]);
    InTreeOf(home, home);
    OnlyDirectoriesThere(home, home);
    assert F.Parent(home + [g]) == home;
    assert (home + [d])[|home|] == d && (home + [g])[|home|] == g;
    hide TreeOf;
  }

  lemma RowsOfMkdir(kd: Key, kg: Key, size: nat)
    ensures var s := IndexDir(EMPTY, kd);
            && !IsFile(s, kd) && LandsOnNoFile(s, kg) && LeavesNoFile(s, kd)
            && IsFile(RenameOther(s, kd, kg, size), kg) && RenameOther(s, kd, kg, size).disk == EMPTY.disk
  {
    hide StrictlyUnder;
  }

  /** A put to g/f, in one chunk, and rm of g are done and respect G1 to G7; afterwards the file is still there, and so
      is the directory, and only the directory's row has gone. */
  ghost predicate PutThenRm(e: Env, homes: Homes, w: World, id: int, session: Session, home: F.Path, g: string,
                            f: string, b: Bytes, fileId: FileId)
  {
    var j := PutJob(e, session, home, g, f, b);
    |b| < TWO_TO_THE_63 && id in w.system.conns &&
    var l3, l4, l5 := Send(id, BeginOf(j, fileId)), Send(id, UploadChunk(fileId, 0, b)), Send(id, UploadEnd);
    var l6 := RmLabel(id, home, g);
    var w3 := WorldNext(e, homes, w, l3);
    var w4 := WorldNext(e, homes, w3, l4);
    var w5 := WorldNext(e, homes, w4, l5);
    var w6 := WorldNext(e, homes, w5, l6);
    && Proper(e, homes, w, l3) && Answer(e, w.system, id, l3.request) == Begun(0)
    && Proper(e, homes, w3, l4) && Completes(e, w3.system, l4)
    && Proper(e, homes, w4, l5) && Completes(e, w4.system, l5)
    && Proper(e, homes, w5, l6) && Completes(e, w5.system, l6)
    && InOrder(e, homes, w6, id, session) && Files(w6.system.store) == map[j.key := b]
    && home + [g] in w6.fs && !IsFile(w6.system.store, NameKey(session.userId, [g]))
  }

  lemma LastSteps(e: Env, homes: Homes, w: World, id: int, session: Session, home: F.Path, g: string, f: string,
                  b: Bytes, fileId: FileId)
    requires AfterRename(e, homes, w, id, session, home, g) && NormalForm([g, f]) && |e.hash(b)| == 32
    requires fileId != [] && b != [] && |b| <= e.config.maxUpload && |b| <= Protocol.MAX_FRAME_SIZE - 40
    ensures PutThenRm(e, homes, w, id, session, home, g, f, b, fileId)
  {
    hide InOrder, PlainTrees, Proper, Completes, WorldNext, Place, Existing, Files, TreeOf, KeyOf, NamesOf, Reach;
    hide JobOk, Holds;
    hide Answer, Kept, NameKey, RowsKept;
    var j := PutJob(e, session, home, g, f, b);
    var kg := NameKey(session.userId, [g]);
    PutJobOk(e, session, home, g, f, b);
    CleanNames(g, f);
    OneName(session, g);
    HomeOf(e, homes, w, id, session);
    LoggedIn(e, homes, w, id, session);
    ParentOfTwo(home, g, f);
    RootName(home, g);
    NamePlace(homes, w.fs, session.userId, [g]);
    NamePlace(homes, w.fs, session.userId, [g, f]);
    assert Kept(w.system.store.disk, j) == [] by { NoPartYet(w.system.store.disk, j); }
    BeginDone(e, homes, w, id, j, fileId);
    var w3 := WorldNext(e, homes, w, Send(id, BeginOf(j, fileId)));
    ChunkDone(e, homes, w3, id, j, fileId);
    var w4 := WorldNext(e, homes, w3, Send(id, UploadChunk(fileId, 0, b)));
    EndDone(e, homes, w4, id, j, fileId);
    var w5 := WorldNext(e, homes, w4, Send(id, UploadEnd));
    assert kg != j.key by { TwoKeys(session, g, f); }
    RowStays(w4.system.store, w5.system.store, j.key, kg);
    SameRowsSameKind(w.system.store, w4.system.store, kg);
    assert kg.path != "/" by { NotTheRoot(session, g); }
    RmDone(e, homes, w5, id, session, g, kg);
    assert map[j.key := b] - {kg} == map[j.key := b];
  }

  lemma ParentOfTwo(home: F.Path, g: string, f: string)
    ensures home + F.Parent([g, f]) == home + [g]
  {
    assert [g, f][..1] == [g];
  }

  lemma NoPartYet(d: Disk, j: Job)
    requires d == EMPTY.disk
    ensures Kept(d, j) == []
  {
  }

  lemma TwoKeys(session: Session, g: string, f: string)
    requires NormalForm([g, f])
    ensures NameKey(session.userId, [g]) != NameKey(session.userId, [g, f])
  {
    CleanNames(g, f);
    OtherName(session, g, f, g);
  }

  lemma RowStays(s: Store, t: Store, k: Key, l: Key)
    requires RowsKept(s, t, k) && l != k
    ensures IsFile(t, l) <==> IsFile(s, l)
  {
  }

  lemma SameRowsSameKind(s: Store, t: Store, k: Key)
    requires t.rows == s.rows
    ensures IsFile(t, k) <==> IsFile(s, k)
  {
  }

  lemma NotTheRoot(session: Session, g: string)
    requires Clean(g)
    ensures NameKey(session.userId, [g]).path != "/"
  {
    assert PathText([g]) == "/" + g;
  }

  /** mkdir d, rename d to g, put g/f, rm g, from the fresh server on: every request is answered with success and
      respects G1 to G7, and after rm of g both the directory g and the file g/f are still there. */
  lemma RenamedDirectoryIsNotRemoved(e: Env, id: int, session: Session, home: F.Path, d: string, g: string, f: string,
                                     b: Bytes, fileId: FileId, size: nat)
    requires (forall c | c in home :: F.FileName(c)) && Clean(d) && NormalForm([g, f]) && d != g && |e.hash(b)| == 32
    requires fileId != [] && b != [] && |b| <= e.config.maxUpload && |b| <= Protocol.MAX_FRAME_SIZE - 40
    ensures var homes, w0 := map[session.userId := home], FreshWorld(id, session, home);
            var l1, l2 := MkdirLabel(id, home, d), AwayLabel(id, home, d, g, size);
            var w1 := WorldNext(e, homes, w0, l1);
            && InOrder(e, homes, w0, id, session) && Files(w0.system.store) == map[]
            && Proper(e, homes, w0, l1) && Completes(e, w0.system, l1)
            && Proper(e, homes, w1, l2) && Completes(e, w1.system, l2)
            && PutThenRm(e, homes, WorldNext(e, homes, w1, l2), id, session, home, g, f, b, fileId)
  {
    hide InOrder, Proper, Completes, WorldNext, Files, AfterRename, FreshWorld, MkdirLabel, AwayLabel, PutThenRm;
    var homes, w0 := map[session.userId := home], FreshWorld(id, session, home);
    CleanNames(g, f);
    FreshIsInOrder(e, id, session, home);
    FirstSteps(e, id, session, home, d, g, size);
    var w1 := WorldNext(e, homes, w0, MkdirLabel(id, home, d));
    LastSteps(e, homes, WorldNext(e, homes, w1, AwayLabel(id, home, d, g, size)), id, session, home, g, f, b, fileId);
  }
}
