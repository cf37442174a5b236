/** The server as a state machine over many connections, and what every run of it keeps. The server has
    one event thread, so a request is one step; uploads and downloads span many and interleave. */
module Runs {
  import opened Basics
  import opened Disk
  import opened Store
  import opened Transfer
  import opened Handlers
  import opened DiskSafety
  import opened References
  import opened Guards
  import opened Paths

  datatype System = System(store: Store, conns: map<int, Conn>)

  const START := System(EMPTY, map[])

  /** A step: a connection comes, goes or sends a request, or a challenge reaches its expiry. */
  datatype Label =
    | Accept(id: int)
    | Close(id: int)
    | Expire(token: Token, md5: Md5)
    | Send(id: int, request: Request)

  function Next(e: Env, y: System, l: Label): System {
    match l
    case Accept(id) => if id in y.conns then y else y.(conns := y.conns[id := FRESH_CONN])
    case Close(id) => y.(conns := y.conns - {id})
    case Expire(token, m) => y.(store := SpendChallenge(y.store, token, m))
    case Send(id, r) =>
      if id !in y.conns then y
      else
        var o := Handle(e, y.store, y.conns[id], r);
        System(o.store, y.conns[id := o.conn])
  }

  function Run(e: Env, y: System, ls: seq<Label>): System {
    if ls == [] then y else Next(e, Run(e, y, ls[..|ls| - 1]), ls[|ls| - 1])
  }

  /** The operation a step performs, if it reaches one. */
  function OpOf(y: System, l: Label): Option<Op> {
    if l.Send? && l.id in y.conns && !l.request.Login? && y.conns[l.id].session.Some? then
      match Parse(y.conns[l.id].session.value, l.request)
      case Ok(op) => Some(op)
      case Err(_) => None
    else None
  }

  // ---------------------------------------------------------------- premises and guards of a step

  ghost predicate CollisionFreeStep(e: Env, y: System, l: Label) {
    l.Send? && l.id in y.conns ==> RequestCollisionFree(e, y.store, y.conns[l.id], l.request)
  }

  /** The step performs `op` and answers Done. */
  predicate Completes(e: Env, y: System, l: Label) {
    OpOf(y, l).Some? &&
    Perform(e, y.store, y.conns[l.id], y.conns[l.id].session.value, OpOf(y, l).value).reply == Done
  }

  predicate SafeStep(e: Env, y: System, l: Label) {
    Completes(e, y, l) ==> SafeGuard(y.store, OpOf(y, l).value)
  }

  predicate ExactStep(e: Env, y: System, l: Label) {
    Completes(e, y, l) ==> ExactGuard(y.store, OpOf(y, l).value)
  }

  /** The change a step makes to what users see. */
  function ChangeAt(e: Env, y: System, l: Label): Change {
    if Completes(e, y, l) then ChangeOf(y.store, y.conns[l.id], y.conns[l.id].session.value, OpOf(y, l).value)
    else Same
  }

  // ---------------------------------------------------------------- files and descriptors

  ghost predicate ConnsOk(y: System) {
    && (forall i | i in y.conns :: ConnOk(y.store.disk, y.conns[i]))
    && (forall i, j | i in y.conns && j in y.conns :: Apart(y.conns[i], y.conns[j]))
  }

  ghost predicate SystemOk(e: Env, y: System) {
    DiskOk(e, y.store.disk) && ConnsOk(y)
  }

  /** The download of `id` and the bytes behind it are the same in both states. */
  ghost predicate SameDownload(y: System, z: System, id: int) {
    && id in y.conns && id in z.conns
    && z.conns[id].download == y.conns[id].download
    && (y.conns[id].download.fd.Some? ==>
          Content(z.store.disk, y.conns[id].download.fd.value) == Content(y.store.disk, y.conns[id].download.fd.value))
  }

  /** The step neither closes connection `id` nor starts another download on it. */
  predicate LeavesDownload(l: Label, id: int) {
    && l != Close(id)
    && (l.Send? && l.id == id ==> !l.request.DownloadBegin?)
  }

  lemma SendOk(e: Env, y: System, id: int, r: Request)
    requires SystemOk(e, y) && CollisionFreeStep(e, y, Send(id, r)) && id in y.conns
    ensures SystemOk(e, Next(e, y, Send(id, r)))
    ensures forall j | j in y.conns && LeavesDownload(Send(id, r), j) :: SameDownload(y, Next(e, y, Send(id, r)), j)
  {
    hide Handle, FileStep, RequestCollisionFree, DiskOk;
    var c := y.conns[id];
    var w := HandleStep(e, y.store, c, r);
    var o := Handle(e, y.store, c, r);
    DownloadKept(e, y.store, c, r);
    OwnConn(e, y.store.disk, c, w, o.store.disk, o.conn);
    forall j | j in y.conns && j != id
      ensures ConnOk(o.store.disk, y.conns[j]) && Apart(o.conn, y.conns[j]) && Apart(y.conns[j], o.conn)
      ensures SameDownload(y, Next(e, y, Send(id, r)), j)
    {
      OtherConn(e, y.store.disk, c, w, o.store.disk, o.conn, y.conns[j]);
    }
  }

  lemma DownloadKept(e: Env, s: Store, c: Conn, r: Request)
    ensures !r.DownloadBegin? ==> Handle(e, s, c, r).conn.download == c.download
  {
    hide RemovePath, RenamePath, InstantUpload, FinishUpload, QueryInstant;
  }

  lemma NextOk(e: Env, y: System, l: Label)
    requires SystemOk(e, y) && CollisionFreeStep(e, y, l)
    ensures SystemOk(e, Next(e, y, l))
    ensures forall j | j in y.conns && LeavesDownload(l, j) :: SameDownload(y, Next(e, y, l), j)
  {
    if l.Send? && l.id in y.conns {
      SendOk(e, y, l.id, l.request);
    }
  }

  ghost predicate CollisionFreeRun(e: Env, y: System, ls: seq<Label>) {
    forall n | 0 <= n < |ls| :: CollisionFreeStep(e, Run(e, y, ls[..n]), ls[n])
  }

  lemma CollisionFreeInit(e: Env, y: System, ls: seq<Label>)
    requires CollisionFreeRun(e, y, ls) && ls != []
    ensures CollisionFreeRun(e, y, ls[..|ls| - 1])
    ensures CollisionFreeStep(e, Run(e, y, ls[..|ls| - 1]), ls[|ls| - 1])
  {
    var init := ls[..|ls| - 1];
    forall n | 0 <= n < |init| ensures CollisionFreeStep(e, Run(e, y, init[..n]), init[n]) {
      assert init[..n] == ls[..n] && init[n] == ls[n];
    }
  }

  /** Over every run, with no guard on requests, every object's bytes hash to its name, for any
      interleaving of uploads that share a part. */
  lemma {:induction false} PublishedContentIsRight(e: Env, y: System, ls: seq<Label>)
    requires SystemOk(e, y) && CollisionFreeRun(e, y, ls)
    ensures SystemOk(e, Run(e, y, ls))
    ensures var d := Run(e, y, ls).store.disk; forall m | m in d.objects :: e.hash(ObjectBytes(d, m)) == m
  {
    if ls != [] {
      CollisionFreeInit(e, y, ls);
      PublishedContentIsRight(e, y, ls[..|ls| - 1]);
      NextOk(e, Run(e, y, ls[..|ls| - 1]), ls[|ls| - 1]);
    }
  }

  /** A download open at the start of a run reads the same bytes at its end, whatever was removed,
      overwritten, collected or published meanwhile. */
  lemma {:induction false} SnapshotDownload(e: Env, y: System, ls: seq<Label>, id: int)
    requires SystemOk(e, y) && CollisionFreeRun(e, y, ls) && id in y.conns
    requires forall l | l in ls :: LeavesDownload(l, id)
    ensures SameDownload(y, Run(e, y, ls), id)
  {
    hide Next, SystemOk, CollisionFreeStep, CollisionFreeRun, LeavesDownload;
    if ls != [] {
      var init, last := ls[..|ls| - 1], ls[|ls| - 1];
      assert ls == init + [last] && last in ls;
      CollisionFreeInit(e, y, ls);
      assert forall l | l in init :: l in ls;
      PublishedContentIsRight(e, y, init);
      SnapshotDownload(e, y, init, id);
      NextOk(e, Run(e, y, init), last);
      DownloadStays(y, Run(e, y, init), Next(e, Run(e, y, init), last), id);
    }
  }

  lemma DownloadStays(y: System, z: System, w: System, id: int)
    requires SameDownload(y, z, id) && SameDownload(z, w, id)
    ensures SameDownload(y, w, id)
  {
  }

  // ---------------------------------------------------------------- references and users' files

  lemma QuietStep(e: Env, y: System, l: Label)
    requires SystemOk(e, y) && Safe(y.store) && OpOf(y, l).None?
    ensures SameFiles(y.store, Next(e, y, l).store)
  {
    match l
    case Expire(token, m) => SpentOk(y.store, token, m);
    case _ => PartsOnly(y.store, y.store);
  }

  /** One step: the users' files change as ChangeAt says, and the invariants are kept exactly under the
      step's guards. */
  lemma StepOutcome(e: Env, y: System, l: Label)
    requires SystemOk(e, y) && CollisionFreeStep(e, y, l) && Safe(y.store)
    ensures Changed(y.store, ChangeAt(e, y, l), SafeStep(e, y, l), ExactStep(e, y, l), Next(e, y, l).store)
  {
    if OpOf(y, l).Some? {
      hide Perform;
      var c, op := y.conns[l.id], OpOf(y, l).value;
      EndIsParsed(c.session.value, l.request);
      PerformOk(e, y.store, c, c.session.value, op);
      assert Next(e, y, l).store == Perform(e, y.store, c, c.session.value, op).store;
    } else {
      QuietStep(e, y, l);
    }
  }

  ghost predicate SafeRun(e: Env, y: System, ls: seq<Label>) {
    forall n | 0 <= n < |ls| :: SafeStep(e, Run(e, y, ls[..n]), ls[n])
  }

  ghost predicate ExactRun(e: Env, y: System, ls: seq<Label>) {
    forall n | 0 <= n < |ls| :: ExactStep(e, Run(e, y, ls[..n]), ls[n])
  }

  /** The users' files after the changes of a run. */
  function FilesAfter(e: Env, y: System, ls: seq<Label>): map<Key, Bytes> {
    if ls == [] then Files(y.store)
    else Apply(FilesAfter(e, y, ls[..|ls| - 1]), ChangeAt(e, Run(e, y, ls[..|ls| - 1]), ls[|ls| - 1]))
  }

  /** Safe collection: over every run under G1, G2, G4 and G5 every file keeps its reference and object,
      and users see exactly what the steps' changes make of the files. */
  lemma {:induction false} FilesFollowChanges(e: Env, y: System, ls: seq<Label>)
    requires SystemOk(e, y) && Safe(y.store)
    requires CollisionFreeRun(e, y, ls) && SafeRun(e, y, ls)
    ensures Safe(Run(e, y, ls).store)
    ensures Files(Run(e, y, ls).store) == FilesAfter(e, y, ls)
  {
    if ls != [] {
      var init, last := ls[..|ls| - 1], ls[|ls| - 1];
      CollisionFreeInit(e, y, ls);
      assert SafeRun(e, y, init) by {
        forall n | 0 <= n < |init| ensures SafeStep(e, Run(e, y, init[..n]), init[n]) {
          assert init[..n] == ls[..n] && init[n] == ls[n];
        }
      }
      FilesFollowChanges(e, y, init);
      PublishedContentIsRight(e, y, init);
      assert SafeStep(e, Run(e, y, ls[..|ls| - 1]), ls[|ls| - 1]);
      StepOutcome(e, Run(e, y, init), last);
    }
  }

  /** Reference exactness: over every run that also respects G3. */
  lemma {:induction false} ReferencesStayExact(e: Env, y: System, ls: seq<Label>)
    requires SystemOk(e, y) && Exact(y.store)
    requires CollisionFreeRun(e, y, ls) && ExactRun(e, y, ls)
    ensures Exact(Run(e, y, ls).store)
  {
    if ls != [] {
      var init, last := ls[..|ls| - 1], ls[|ls| - 1];
      CollisionFreeInit(e, y, ls);
      assert ExactRun(e, y, init) by {
        forall n | 0 <= n < |init| ensures ExactStep(e, Run(e, y, init[..n]), init[n]) {
          assert init[..n] == ls[..n] && init[n] == ls[n];
        }
      }
      ReferencesStayExact(e, y, init);
      PublishedContentIsRight(e, y, init);
      assert ExactStep(e, Run(e, y, ls[..|ls| - 1]), ls[|ls| - 1]);
      StepOutcome(e, Run(e, y, init), last);
    }
  }

  /** Exactness holds after a step iff the step respects its guard: no weaker guard would do. */
  lemma GuardsAreExact(e: Env, y: System, l: Label)
    requires SystemOk(e, y) && CollisionFreeStep(e, y, l) && Exact(y.store)
    ensures Exact(Next(e, y, l).store) <==> ExactStep(e, y, l)
    ensures Safe(Next(e, y, l).store) <==> SafeStep(e, y, l)
  {
    StepOutcome(e, y, l);
  }

  lemma StartIsExact(e: Env)
    ensures SystemOk(e, START) && Exact(START.store) && Files(START.store) == map[]
  {
    assert forall k :: KeyOk(START.store, k);
  }

  // ---------------------------------------------------------------- who is affected

  predicate Touches(change: Change, k: Key) {
    match change
    case Same => false
    case Put(l, _) => k == l
    case Erase(ks) => k in ks
    case Move(from, to) => k == from || k == to
  }

  lemma ApplyElsewhere(files: map<Key, Bytes>, change: Change, k: Key)
    requires !Touches(change, k)
    ensures k in Apply(files, change) <==> k in files
    ensures k in files ==> Apply(files, change)[k] == files[k]
  {
  }

  /** A step changes no file of any user but the one whose session sent it. */
  lemma OnlyOwnFilesChange(e: Env, y: System, l: Label, k: Key)
    requires Touches(ChangeAt(e, y, l), k)
    ensures l.Send? && l.id in y.conns && y.conns[l.id].session.Some?
    ensures k.user == y.conns[l.id].session.value.userId
  {
    hide Perform;
    var session := y.conns[l.id].session.value;
    ParsedKeys(session, l.request);
  }

  lemma ParsedKeys(session: Session, r: Request)
    ensures var p := Parse(session, r);
            && (p.Ok? && (p.value.DoInstant? || p.value.DoRm? || p.value.DoRename? || p.value.DoMkdir?) ==>
                  p.value.key.user == session.userId)
            && (p.Ok? && p.value.DoRename? ==> p.value.to.user == session.userId)
  {
  }

  // ---------------------------------------------------------------- what the index can hold

  /** '/' and a normal form. */
  predicate NormalPath(path: string) {
    path != "" && path[0] == '/' && NormalForm(Components(path[1..]))
  }

  /** Every path in the index, and every path an open upload is for, is normal. */
  ghost predicate PathsNormal(y: System) {
    && (forall k | k in y.store.rows :: NormalPath(k.path))
    && (forall i | i in y.conns && y.conns[i].upload.fd.Some? :: NormalPath(y.conns[i].upload.path))
  }

  /** The keys an operation may put into the index. */
  function NewKeys(c: Conn, session: Session, op: Op): set<Key> {
    match op
    case DoMkdir(k, _, _) => {k}
    case DoRename(_, to, _, _) => {to}
    case DoInstant(k, _, _, _, _) => {k}
    case DoEnd => if c.upload.fd.Some? then {Key(session.userId, c.upload.path)} else {}
    case _ => {}
  }

  lemma RowsAfter(e: Env, s: Store, c: Conn, session: Session, op: Op)
    ensures var o := Perform(e, s, c, session, op);
            && (forall k | k in o.store.rows :: k in s.rows || k in NewKeys(c, session, op))
            && (o.conn.upload.fd.Some? ==>
                  (c.upload.fd.Some? && o.conn.upload.path == c.upload.path)
                      || (op.DoBegin? && o.conn.upload.path == op.key.path))
  {
    hide OnUploadEnd, ClaimRefusal, QueryInstant, OnDownloadChunk, BeginDownload, WriteRefusal, OpenPart, DropRef;
    hide Sweep;
    EndRows(e, s, c, session.userId);
  }

  lemma EndRows(e: Env, s: Store, c: Conn, userId: int)
    ensures var o := OnUploadEnd(e, s, c, userId);
            && o.conn.upload.fd.None?
            && forall k | k in o.store.rows :: k in s.rows || (c.upload.fd.Some? && k == Key(userId, c.upload.path))
  {
    hide PartBytes, PublishFile, DropRef;
  }

  lemma KeyIsNormal(session: Session, path: string)
    requires KeyOf(session, path).Ok?
    ensures NormalPath(KeyOf(session, path).value.path)
  {
    NormalizeSplitsBack(path);
    assert ("/" + Normalize(path).value)[1..] == Normalize(path).value;
  }

  lemma ParsedKeysAreNormal(session: Session, r: Request)
    requires Parse(session, r).Ok?
    ensures var op := Parse(session, r).value;
            && (op.DoMkdir? || op.DoInstant? || op.DoBegin? ==> NormalPath(op.key.path))
            && (op.DoRename? ==> NormalPath(op.to.path))
  {
    hide KeyOf, PartOf, NormalPath;
    match r
    case Mkdir(path, _, _) => if KeyOf(session, path).Ok? { KeyIsNormal(session, path); }
    case Rename(_, to, _, _) => if KeyOf(session, to).Ok? { KeyIsNormal(session, to); }
    case Instant(path, _, _, _, _) => if KeyOf(session, path).Ok? { KeyIsNormal(session, path); }
    case UploadBegin(path, _, _, _, _) => if KeyOf(session, path).Ok? { KeyIsNormal(session, path); }
    case _ =>
  }

  lemma StepKeepsNormal(e: Env, y: System, l: Label)
    requires PathsNormal(y)
    ensures PathsNormal(Next(e, y, l))
  {
    hide NormalPath, Perform;
    if OpOf(y, l).Some? {
      var c := y.conns[l.id];
      ParsedKeysAreNormal(c.session.value, l.request);
      RowsAfter(e, y.store, c, c.session.value, OpOf(y, l).value);
    }
  }

  /** In every reachable state all indexed paths are normal. */
  lemma {:induction false} StoredPathsAreNormal(e: Env, y: System, ls: seq<Label>)
    requires PathsNormal(y)
    ensures PathsNormal(Run(e, y, ls))
  {
    if ls != [] {
      StoredPathsAreNormal(e, y, ls[..|ls| - 1]);
      StepKeepsNormal(e, Run(e, y, ls[..|ls| - 1]), ls[|ls| - 1]);
    }
  }
}
