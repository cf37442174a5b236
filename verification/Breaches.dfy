/** What happens without the guards: in states that keep every invariant, requests that a logged-in connection
    sends and the server answers with Done, and that break the references (G1 to G5), for every content, user
    and path. G1 loses the bytes. G2, G4 and G5 lose the row, while the shortcut still opens for download. G3
    leaves a reference that no file stands for. */
module Breaches {
  import opened Basics
  import opened Disk
  import opened Store
  import opened Transfer
  import opened Handlers
  import opened DiskSafety
  import opened References
  import opened Guards
  import opened Runs
  import opened Parts
  import opened Uploads
  import Client

  ghost predicate Good(e: Env, s: Store) {
    DiskOk(e, s.disk) && Exact(s)
  }

  /** `s` with one more file, as an upload of `b` to `k` leaves it. */
  function WithFile(e: Env, s: Store, k: Key, b: Bytes): Store {
    AddRef(Publish(s, e.hash(b), b), k, e.hash(b), |b|)
  }

  lemma EmptyIsGood(e: Env)
    ensures Good(e, EMPTY)
  {
    assert forall k :: KeyOk(EMPTY, k);
  }

  lemma WithFileIsGood(e: Env, s: Store, k: Key, b: Bytes)
    requires Good(e, s) && |e.hash(b)| == 32 && FileMd5(s, k) == ""
    requires e.hash(b) in s.disk.objects ==> NoCollision(e, ObjectBytes(s.disk, e.hash(b)), b)
    ensures Good(e, WithFile(e, s, k, b))
    ensures FileMd5(WithFile(e, s, k, b), k) == e.hash(b)
    ensures forall l | l != k :: FileMd5(WithFile(e, s, k, b), l) == FileMd5(s, l)
  {
    AddedMd5(Publish(s, e.hash(b), b), k, e.hash(b), |b|);
    PublishSafe(e, s, e.hash(b), b);
    PublishOk(e, s.disk, e.hash(b), b);
    hide PublishFile, SafeBut, DiskOk, Safe, ObjectBytes, NoCollision;
    FirstReference(s, Publish(s, e.hash(b), b), k, e.hash(b), |b|);
  }

  lemma AddedMd5(s: Store, k: Key, m: Md5, size: nat)
    ensures FileMd5(AddRef(s, k, m, size), k) == m
    ensures forall l | l != k :: FileMd5(AddRef(s, k, m, size), l) == FileMd5(s, l)
  {
  }

  lemma OneObject(e: Env, k: Key, b: Bytes, m: Md5)
    ensures m in WithFile(e, EMPTY, k, b).disk.objects <==> m == e.hash(b)
  {
  }

  // ---------------------------------------------------------------- one logged-in user

  /** The server in state `s` with one connection, on which the session's user is logged in. */
  function Alone(id: int, s: Store, session: Session): System {
    System(s, map[id := FRESH_CONN.(session := Some(session))])
  }

  function Answer(e: Env, y: System, id: int, r: Request): Reply
    requires id in y.conns
  {
    Handle(e, y.store, y.conns[id], r).reply
  }

  lemma AloneIsGood(e: Env, id: int, s: Store, session: Session)
    requires Good(e, s)
    ensures SystemOk(e, Alone(id, s, session))
  {
    hide DiskOk, Exact;
  }

  /** The key opens for download and reads `b`, whatever its row says. */
  ghost predicate StillOpens(s: Store, k: Key, b: Bytes) {
    forall fileId ::
      var r := BeginDownload(s, k, fileId);
      r.Ok? && r.value.total == |b| && r.value.fd.Some? && Content(s.disk, r.value.fd.value) == b
  }

  lemma OpensShortcut(s: Store, k: Key, m: Md5, b: Bytes)
    requires m != "" && PathMd5(s, k) == m && m in s.disk.objects && ObjectBytes(s.disk, m) == b
    ensures StillOpens(s, k, b)
  {
  }

  /** A request that is done and whose guard fails breaks what the guard protects. */
  lemma Unguarded(e: Env, y: System, l: Label)
    requires SystemOk(e, y) && Exact(y.store) && CollisionFreeStep(e, y, l) && Completes(e, y, l)
    ensures !SafeGuard(y.store, OpOf(y, l).value) ==> !Safe(Next(e, y, l).store)
    ensures !ExactGuard(y.store, OpOf(y, l).value) ==> !Exact(Next(e, y, l).store)
  {
    hide SystemOk, Exact, Safe, Next, CollisionFreeStep, SafeGuard, ExactGuard;
    GuardsAreExact(e, y, l);
  }

  /** The rename as the state machine performs it. */
  lemma RenameIs(e: Env, id: int, s: Store, session: Session, path: string, to: string, k: Key, l: Key, phys: string,
                 size: nat)
    requires KeyOf(session, path) == Ok(k) && KeyOf(session, to) == Ok(l)
    ensures var y, r := Alone(id, s, session), Rename(path, to, Ok(phys), Ok(size));
            && OpOf(y, Send(id, r)) == Some(DoRename(k, l, Ok(phys), Ok(size)))
            && Completes(e, y, Send(id, r)) && CollisionFreeStep(e, y, Send(id, r)) && Answer(e, y, id, r) == Done
            && Next(e, y, Send(id, r)).store == RenamePath(s, k, l, Ok(size)).0
  {
    hide KeyOf, RenameFile, RenameOther;
  }

  /** G2: renaming a file to itself deletes its row, so that it is no file any more. Its shortcut still opens for
      download, until rm collects the object. */
  lemma RenameToItself(e: Env, id: int, session: Session, path: string, k: Key, b: Bytes, phys: string, size: nat)
    requires |e.hash(b)| == 32 && KeyOf(session, path) == Ok(k)
    ensures var y, r := Alone(id, WithFile(e, EMPTY, k, b), session), Rename(path, path, Ok(phys), Ok(size));
            var z := Next(e, y, Send(id, r)).store;
            && SystemOk(e, y) && Exact(y.store) && Answer(e, y, id, r) == Done && !Safe(z)
            && k !in z.rows && StillOpens(z, k, b)
            && forall node | node != Directory :: e.hash(b) !in RemovePath(z, k, node).disk.objects
  {
    hide SystemOk, KeyOf, Safe, DiskOk, Next, StillOpens;
    EmptyIsGood(e);
    WithFileIsGood(e, EMPTY, k, b);
    var s := WithFile(e, EMPTY, k, b);
    AloneIsGood(e, id, s, session);
    RenameIs(e, id, s, session, path, path, k, k, phys, size);
    Unguarded(e, Alone(id, s, session), Send(id, Rename(path, path, Ok(phys), Ok(size))));
    RowGone(e, k, b, size);
  }

  lemma RowGone(e: Env, k: Key, b: Bytes, size: nat)
    requires |e.hash(b)| == 32
    ensures var z := RenamePath(WithFile(e, EMPTY, k, b), k, k, Ok(size)).0;
            && k !in z.rows && StillOpens(z, k, b)
            && forall node | node != Directory :: e.hash(b) !in RemovePath(z, k, node).disk.objects
  {
    OpensShortcut(RenamePath(WithFile(e, EMPTY, k, b), k, k, Ok(size)).0, k, e.hash(b), b);
    hide StillOpens;
  }

  /** G3: renaming a file over a file of another content strands the reference of the other content: when it was
      the last one, its object stays although no file carries it, until that content is put to the same path
      again and removed. */
  lemma RenameOverOther(e: Env, id: int, session: Session, path: string, to: string, k: Key, l: Key,
                        a: Bytes, b: Bytes, phys: string, size: nat)
    requires |e.hash(a)| == 32 && |e.hash(b)| == 32 && e.hash(a) != e.hash(b) && k != l
    requires KeyOf(session, path) == Ok(k) && KeyOf(session, to) == Ok(l)
    ensures var y := Alone(id, WithFile(e, WithFile(e, EMPTY, k, a), l, b), session);
            var r := Rename(path, to, Ok(phys), Ok(size));
            var z := Next(e, y, Send(id, r)).store;
            && SystemOk(e, y) && Exact(y.store) && Answer(e, y, id, r) == Done && Safe(z) && !Exact(z)
            && e.hash(b) in z.disk.objects && (forall i :: FileMd5(z, i) != e.hash(b))
            && e.hash(b) !in Release(AddRef(Cleared(z, l), l, e.hash(b), |b|), l).disk.objects
  {
    hide WithFile, SystemOk, KeyOf, Safe, DiskOk, Exact, Next, Release;
    EmptyIsGood(e);
    WithFileIsGood(e, EMPTY, k, a);
    assert e.hash(b) !in WithFile(e, EMPTY, k, a).disk.objects by { OneObject(e, k, a, e.hash(b)); }
    WithFileIsGood(e, WithFile(e, EMPTY, k, a), l, b);
    var s := WithFile(e, WithFile(e, EMPTY, k, a), l, b);
    AloneIsGood(e, id, s, session);
    RenameIs(e, id, s, session, path, to, k, l, phys, size);
    Unguarded(e, Alone(id, s, session), Send(id, Rename(path, to, Ok(phys), Ok(size))));
    Stranded(s, k, l, Ok(size));
    PutBackAndRemoved(e, k, l, a, b, Ok(size));
  }

  lemma Stranded(s: Store, from: Key, to: Key, moved: Result<nat>)
    requires Exact(s) && FileMd5(s, from) != "" && FileMd5(s, to) != "" && FileMd5(s, from) != FileMd5(s, to)
    requires forall k | k != to :: FileMd5(s, k) != FileMd5(s, to)
    ensures var t := RenamePath(s, from, to, moved).0;
            Safe(t) && FileMd5(s, to) in t.disk.objects && forall k :: FileMd5(t, k) != FileMd5(s, to)
  {
    assert FileMd5(s, to) in s.disk.objects by { assert KeyOk(s, to); }
    hide Exact, Safe, RenameFile;
    RenameFileSafe(s, from, to);
    forall k ensures FileMd5(RenamePath(s, from, to, moved).0, k) != FileMd5(s, to) {
      RenamedMd5(s, from, to, k);
    }
    RenamedMd5(s, from, to, to);
  }

  lemma PutBackAndRemoved(e: Env, k: Key, l: Key, a: Bytes, b: Bytes, moved: Result<nat>)
    requires e.hash(a) != "" && e.hash(b) != "" && e.hash(a) != e.hash(b) && k != l
    ensures var z := RenamePath(WithFile(e, WithFile(e, EMPTY, k, a), l, b), k, l, moved).0;
            e.hash(b) !in Release(AddRef(Cleared(z, l), l, e.hash(b), |b|), l).disk.objects
  {
    var z := RenamePath(WithFile(e, WithFile(e, EMPTY, k, a), l, b), k, l, moved).0;
    assert Refs(z, e.hash(b)) == {l} && KeyMd5(z, l) == e.hash(a);
    LastReferenceGoes(Cleared(z, l), l, e.hash(b), |b|);
  }

  lemma LastReferenceGoes(s: Store, l: Key, m: Md5, size: nat)
    requires m != "" && Refs(s, m) <= {l}
    ensures m !in Release(AddRef(s, l, m, size), l).disk.objects
  {
  }

  lemma MkdirIs(e: Env, id: int, s: Store, session: Session, path: string, k: Key, phys: string)
    requires KeyOf(session, path) == Ok(k)
    ensures var y, r := Alone(id, s, session), Mkdir(path, Ok(phys), Ok(()));
            && OpOf(y, Send(id, r)) == Some(DoMkdir(k, Ok(phys), Ok(())))
            && Completes(e, y, Send(id, r)) && CollisionFreeStep(e, y, Send(id, r)) && Answer(e, y, id, r) == Done
            && Next(e, y, Send(id, r)).store == IndexDir(s, k)
  {
    hide KeyOf;
  }

  /** G4: mkdir on a file's path makes the file's row a directory's. The physical directory can be made, since files
      are stored as objects. The shortcut still opens for download; removing the new directory takes it away and
      strands the object. */
  lemma MkdirOverFile(e: Env, id: int, session: Session, path: string, k: Key, b: Bytes, phys: string)
    requires |e.hash(b)| == 32 && KeyOf(session, path) == Ok(k)
    ensures var y, r := Alone(id, WithFile(e, EMPTY, k, b), session), Mkdir(path, Ok(phys), Ok(()));
            var z := Next(e, y, Send(id, r)).store;
            && SystemOk(e, y) && Exact(y.store) && Answer(e, y, id, r) == Done && !Safe(z)
            && !IsFile(z, k) && StillOpens(z, k, b)
            && var t := RemovePath(z, k, Directory); KeyMd5(t, k) == "" && e.hash(b) in t.disk.objects
  {
    hide WithFile, SystemOk, KeyOf, Safe, DiskOk, Next, StillOpens, RemovePath;
    EmptyIsGood(e);
    WithFileIsGood(e, EMPTY, k, b);
    var s := WithFile(e, EMPTY, k, b);
    AloneIsGood(e, id, s, session);
    MkdirIs(e, id, s, session, path, k, phys);
    Unguarded(e, Alone(id, s, session), Send(id, Mkdir(path, Ok(phys), Ok(()))));
    RowIsDirectory(e, k, b);
  }

  lemma RowIsDirectory(e: Env, k: Key, b: Bytes)
    requires |e.hash(b)| == 32
    ensures var z := IndexDir(WithFile(e, EMPTY, k, b), k);
            && !IsFile(z, k) && StillOpens(z, k, b)
            && var t := RemovePath(z, k, Directory); KeyMd5(t, k) == "" && e.hash(b) in t.disk.objects
  {
    var z := IndexDir(WithFile(e, EMPTY, k, b), k);
    OpensShortcut(z, k, e.hash(b), b);
    assert Selected(z, k.user, k.path) == {};
    hide StillOpens;
  }

  /** G5: renaming a directory over a file's path makes the file's row one without content. The shortcut still opens
      for download. */
  lemma RenameDirectoryOverFile(e: Env, id: int, session: Session, path: string, to: string, dir: Key, k: Key,
                                b: Bytes, phys: string, size: nat)
    requires |e.hash(b)| == 32 && dir != k && KeyOf(session, path) == Ok(dir) && KeyOf(session, to) == Ok(k)
    ensures var y := Alone(id, IndexDir(WithFile(e, EMPTY, k, b), dir), session);
            var r := Rename(path, to, Ok(phys), Ok(size));
            var z := Next(e, y, Send(id, r)).store;
            && SystemOk(e, y) && Exact(y.store) && Answer(e, y, id, r) == Done && !Safe(z)
            && FileMd5(z, k) == "" && StillOpens(z, k, b)
  {
    hide WithFile, SystemOk, KeyOf, Safe, DiskOk, Next, RenameOther, StillOpens;
    EmptyIsGood(e);
    WithFileIsGood(e, EMPTY, k, b);
    var s := WithFile(e, EMPTY, k, b);
    assert FileMd5(s, dir) == FileMd5(EMPTY, dir) == "";
    IndexDirOk(s, dir);
    var t := IndexDir(s, dir);
    AloneIsGood(e, id, t, session);
    RenameIs(e, id, t, session, path, to, dir, k, phys, size);
    Unguarded(e, Alone(id, t, session), Send(id, Rename(path, to, Ok(phys), Ok(size))));
    RowWithoutContent(e, dir, k, b, size);
  }

  lemma RowWithoutContent(e: Env, dir: Key, k: Key, b: Bytes, size: nat)
    requires |e.hash(b)| == 32 && dir != k
    ensures var z := RenamePath(IndexDir(WithFile(e, EMPTY, k, b), dir), dir, k, Ok(size)).0;
            FileMd5(z, k) == "" && StillOpens(z, k, b)
  {
    OpensShortcut(RenamePath(IndexDir(WithFile(e, EMPTY, k, b), dir), dir, k, Ok(size)).0, k, e.hash(b), b);
    hide StillOpens;
  }

  // ---------------------------------------------------------------- G1

  /** The job's user is logged in, and the job's file is the only one that has the content. */
  ghost predicate OnlyHolder(e: Env, y: System, id: int, j: Job) {
    && SystemOk(e, y) && Exact(y.store)
    && id in y.conns && y.conns[id].session == Some(j.session)
    && FileMd5(y.store, j.key) == j.md5 && Refs(y.store, j.md5) == {j.key}
    && j.md5 in y.store.disk.objects && ObjectBytes(y.store.disk, j.md5) == j.content
  }

  /** The key is a file of the content `m`, and its bytes are gone. */
  ghost predicate Lost(s: Store, k: Key, m: Md5) {
    FileMd5(s, k) == m && m !in s.disk.objects && forall fileId :: BeginDownload(s, k, fileId) == Err(NotFound)
  }

  lemma ClaimedAway(s: Store, token: Token, c: Challenge, k: Key, m: Md5, size: nat)
    requires m != "" && KeyOk(s, k) && FileMd5(s, k) == m && Refs(s, m) == {k}
    ensures Lost(AddRef(Cleared(SpendChallenge(IssueChallenge(s, token, m, c), token, m), k), k, m, size), k, m)
    ensures !Safe(AddRef(Cleared(SpendChallenge(IssueChallenge(s, token, m, c), token, m), k), k, m, size))
  {
    assert !KeyOk(AddRef(Cleared(SpendChallenge(IssueChallenge(s, token, m, c), token, m), k), k, m, size), k);
  }

  /** Putting a content again, with overwrite, over the only file that has it: the query hits, the claim is
      accepted, and the object that the file needs is collected. */
  lemma PutAgain(e: Env, y: System, id: int, j: Job)
    requires JobOk(e, j) && OnlyHolder(e, y, id, j)
    ensures |j.content| < TWO_TO_THE_63
    ensures var asks := InstantQuery(j.md5, |j.content|);
            var claims := Client.ClaimOf(j, false, true, HonestClaim(e, j.md5, j.content, Client.ChallengeOf(e, j)));
            var asked := Next(e, y, Send(id, asks));
            && Answer(e, y, id, asks) == Hit(Client.ChallengeOf(e, j))
            && id in asked.conns && Answer(e, asked, id, claims) == Done
            && Lost(Next(e, asked, Send(id, claims)).store, j.key, j.md5)
            && !Safe(Next(e, asked, Send(id, claims)).store)
  {
    hide Handle, Safe, DiskOk, Exact, JobOk, Client.ChallengeOf, HonestClaim, Client.ClaimOf, IssueChallenge;
    Client.JobChunk(e, j);
    Client.JobHash(e, j);
    Client.QueryAnswer(e, y.store, y.conns[id], j);
    assert Safe(y.store) by { ExactIsSafe(y.store); }
    Client.InstantAnswer(e, y.store, y.conns[id], j, false, true);
    assert KeyOk(y.store, j.key) by { SafeKey(y.store, j.key); }
    ClaimedAway(y.store, j.session.token, Client.ChallengeOf(e, j), j.key, j.md5, |j.content|);
    hide Lost, AddRef, Cleared, SpendChallenge;
  }

  lemma SafeKey(s: Store, k: Key)
    requires Safe(s)
    ensures KeyOk(s, k)
  {
  }

  lemma OnlyReference(e: Env, k: Key, b: Bytes)
    ensures var s := WithFile(e, EMPTY, k, b);
            Refs(s, e.hash(b)) == {k} && e.hash(b) in s.disk.objects && ObjectBytes(s.disk, e.hash(b)) == b
  {
  }

  lemma AloneHolds(e: Env, id: int, j: Job)
    requires JobOk(e, j)
    ensures OnlyHolder(e, Alone(id, WithFile(e, EMPTY, j.key, j.content), j.session), id, j)
  {
    hide Safe, DiskOk, Exact, JobOk, SystemOk, WithFile;
    Client.JobHash(e, j);
    EmptyIsGood(e);
    WithFileIsGood(e, EMPTY, j.key, j.content);
    OnlyReference(e, j.key, j.content);
    AloneIsGood(e, id, WithFile(e, EMPTY, j.key, j.content), j.session);
  }

  /** G1: so the client's own put with overwrite loses an unchanged file, for every job of every user. */
  lemma InstantOverOnlyReference(e: Env, id: int, j: Job)
    requires JobOk(e, j)
    ensures |j.content| < TWO_TO_THE_63
    ensures var y := Alone(id, WithFile(e, EMPTY, j.key, j.content), j.session);
            var asks := InstantQuery(j.md5, |j.content|);
            var claims := Client.ClaimOf(j, false, true, HonestClaim(e, j.md5, j.content, Client.ChallengeOf(e, j)));
            var asked := Next(e, y, Send(id, asks));
            && SystemOk(e, y) && Exact(y.store)
            && Answer(e, y, id, asks) == Hit(Client.ChallengeOf(e, j))
            && id in asked.conns && Answer(e, asked, id, claims) == Done
            && Lost(Next(e, asked, Send(id, claims)).store, j.key, j.md5)
            && !Safe(Next(e, asked, Send(id, claims)).store)
  {
    hide Answer, Safe, Lost, Exact, JobOk, SystemOk, Alone, WithFile, Client.ChallengeOf, HonestClaim, Client.ClaimOf;
    hide Next;
    hide OnlyHolder;
    AloneHolds(e, id, j);
    var y := Alone(id, WithFile(e, EMPTY, j.key, j.content), j.session);
    HolderIsExact(e, y, id, j);
    PutAgain(e, y, id, j);
  }

  lemma HolderIsExact(e: Env, y: System, id: int, j: Job)
    requires OnlyHolder(e, y, id, j)
    ensures SystemOk(e, y) && Exact(y.store) && id in y.conns
  {
  }

  // ---------------------------------------------------------------- the same from the empty server

  /** A put by which nobody else does anything. */
  function LonePut(id: int, j: Job, fileId: FileId): Attempt {
    Attempt(id, [], fileId, seq(|j.content|, _ => []), true, [])
  }

  /** No row, reference, shortcut, challenge or object yet; parts there may be. */
  predicate NoFilesYet(s: Store) {
    s == EMPTY.(disk := s.disk) && s.disk.objects == map[]
  }

  lemma BeginNoFiles(e: Env, y: System, id: int, j: Job, fileId: FileId)
    requires JobOk(e, j) && id in y.conns && y.conns[id].session == Some(j.session) && NoFilesYet(y.store)
    ensures NoFilesYet(Next(e, y, Send(id, BeginOf(j, fileId))).store)
  {
    hide JobOk, Handle, BeginOf;
    JobBounds(e, j);
    OwnBegin(e, y, id, j, fileId);
  }

  lemma ChunkNoFiles(e: Env, y: System, id: int, j: Job, fileId: FileId, bytes: Bytes, data: Bytes)
    requires Holds(y, id, j, fileId, bytes) && fileId != [] && NoFilesYet(y.store)
    requires data != [] && |bytes| + |data| <= |j.content|
    ensures NoFilesYet(Next(e, y, Send(id, UploadChunk(fileId, |bytes|, data))).store)
  {
    OwnChunk(e, y, id, j, fileId, bytes, data);
    hide Handle;
  }

  lemma LoneTurn(e: Env, y: System, id: int, j: Job, fileId: FileId, sent: nat)
    requires fileId != [] && Quiet(e, y) && NoFilesYet(y.store)
    requires sent < |j.content| < TWO_TO_THE_63 && j.chunk > 0 && Holds(y, id, j, fileId, Grown([], j.content, sent))
    ensures LeftAlone(e, y, [], id, j.part)
    ensures var z := AfterTurn(e, y, id, j, fileId, sent, []);
            Quiet(e, z) && NoFilesYet(z.store) && Holds(z, id, j, fileId, Grown([], j.content, sent + Want(j, sent)))
  {
    hide Quiet, Holds, Next, NoFilesYet, LeavesPart, CollisionFreeStep, Grown, Want;
    TurnGrows(e, y, id, j, fileId, [], sent, []);
    ChunkNoFiles(e, y, id, j, fileId, Grown([], j.content, sent), j.content[sent..sent + Want(j, sent)]);
  }

  lemma {:induction false} LoneSending(e: Env, y: System, id: int, j: Job, fileId: FileId, sent: nat,
                                       turns: seq<seq<Label>>)
    requires fileId != [] && Quiet(e, y) && NoFilesYet(y.store) && forall t | t in turns :: t == []
    requires sent <= |j.content| < TWO_TO_THE_63 && Holds(y, id, j, fileId, Grown([], j.content, sent)) && j.chunk > 0
    ensures Undisturbed(e, y, id, j, fileId, sent, turns)
    ensures NoFilesYet(SendAll(e, y, id, j, fileId, sent, turns).0.store)
    decreases |turns|
  {
    hide Quiet, Holds, NoFilesYet, LeftAlone, AfterTurn, Grown, Want;
    if turns != [] && sent < |j.content| {
      assert turns[0] in turns && turns[0] == [];
      forall t | t in turns[1..] ensures t == [] { assert t in turns; }
      LoneTurn(e, y, id, j, fileId, sent);
      LoneSending(e, AfterTurn(e, y, id, j, fileId, sent, []), id, j, fileId, sent + Want(j, sent), turns[1..]);
    }
  }

  lemma LoneConnected(e: Env, id: int, j: Job, fileId: FileId)
    requires JobOk(e, j)
    ensures var a := LonePut(id, j, fileId);
            var z := Connected(e, START, j, a);
            && LeftAlone(e, START, [], id, j.part) && Quiet(e, START) && Quiet(e, z) && NoFilesYet(z.store)
            && id in z.conns && z.conns[id].session == Some(j.session)
            && Kept(START.store.disk, j) == [] == Kept(z.store.disk, j)
  {
    hide SystemOk, Next, JobOk;
    StartIsInOrder(e, id, j.part, j.content);
    Reconnect(e, START, id, j.session);
  }

  lemma LoneOpened(e: Env, id: int, j: Job, fileId: FileId)
    requires JobOk(e, j)
    ensures var a := LonePut(id, j, fileId);
            var z := Opened(e, START, j, a);
            Quiet(e, z) && NoFilesYet(z.store) && Holds(z, id, j, fileId, []) && ResumeAt(e, START, j, a) == 0
  {
    hide SystemOk, PartsApart, Next, JobOk, Holds, Connected, Handle, BeginOf, NoFilesYet;
    LoneConnected(e, id, j, fileId);
    BeginHolds(e, Connected(e, START, j, LonePut(id, j, fileId)), id, j, fileId);
    BeginNoFiles(e, Connected(e, START, j, LonePut(id, j, fileId)), id, j, fileId);
  }

  lemma LoneLoop(e: Env, id: int, j: Job, fileId: FileId)
    requires JobOk(e, j) && fileId != [] && j.chunk > 0 && |j.content| < TWO_TO_THE_63
    ensures var a := LonePut(id, j, fileId);
            && Undisturbed(e, Opened(e, START, j, a), id, j, fileId, ResumeAt(e, START, j, a), a.turns)
            && NoFilesYet(LoopEnd(e, START, j, a).store) && AllSent(e, START, j, a) == LoopEnd(e, START, j, a)
            && LeftAlone(e, LoopEnd(e, START, j, a), [], id, j.part)
  {
    hide Quiet, NoFilesYet, JobOk, Holds, Opened, ResumeAt, Undisturbed, SendAll, LeavesPart, CollisionFreeStep;
    LoneOpened(e, id, j, fileId);
    NothingGrown([], j.content);
    LoneSending(e, Opened(e, START, j, LonePut(id, j, fileId)), id, j, fileId, 0, LonePut(id, j, fileId).turns);
  }

  ghost predicate SameUntilEnd(e: Env, j: Job, a: Attempt, b: Attempt)
    requires j.chunk > 0 && |j.content| < TWO_TO_THE_63
  {
    && Opened(e, START, j, a) == Opened(e, START, j, b) && ResumeAt(e, START, j, a) == ResumeAt(e, START, j, b)
    && LoopEnd(e, START, j, a) == LoopEnd(e, START, j, b) && AllSent(e, START, j, a) == AllSent(e, START, j, b)
  }

  lemma EndDoesNotMatter(e: Env, j: Job, a: Attempt)
    requires j.chunk > 0 && |j.content| < TWO_TO_THE_63
    ensures SameUntilEnd(e, j, a, a.(finishes := false))
  {
    hide Next, SendAll, Run, Handle;
  }

  lemma WholeContent(content: Bytes)
    ensures Grown([], content, |content|) == content
  {
  }

  lemma NoObjectsNoCollision(e: Env, y: System, id: int)
    requires NoFilesYet(y.store)
    ensures CollisionFreeStep(e, y, Send(id, UploadEnd))
  {
    hide FinishRefusal;
  }

  /** Nothing disturbs a lone put on the empty server, and no file appears before its end. */
  lemma LonePutIsAlone(e: Env, id: int, j: Job, fileId: FileId)
    requires JobOk(e, j) && fileId != [] && j.chunk > 0 && |j.content| < TWO_TO_THE_63
    ensures AttemptAlone(e, START, j, LonePut(id, j, fileId))
    ensures NoFilesYet(AllSent(e, START, j, LonePut(id, j, fileId)).store) && Quiet(e, START)
    ensures Kept(START.store.disk, j) == []
  {
    hide Quiet, NoFilesYet, JobOk, Holds, Opened, ResumeAt, Undisturbed, SendAll, LeftAlone, LoopEnd, Kept, PartBytes;
    hide Grown;
    var a := LonePut(id, j, fileId);
    LoneConnected(e, id, j, fileId);
    LoneLoop(e, id, j, fileId);
    var unfinished := a.(finishes := false);
    assert SameUntilEnd(e, j, a, unfinished) by { EndDoesNotMatter(e, j, a); }
    var n := AllSentIs(e, START, j, unfinished);
    HoldsConn(AllSent(e, START, j, a), id, j, fileId, Grown([], j.content, n));
    WholeContent(j.content);
    NoObjectsNoCollision(e, AllSent(e, START, j, a), id);
  }

  /** After a lone put on the empty server its file is the only one. */
  lemma LonePutShows(e: Env, id: int, j: Job, fileId: FileId)
    requires JobOk(e, j) && fileId != [] && j.chunk > 0 && |j.content| < TWO_TO_THE_63
    ensures var a, w := LonePut(id, j, fileId), AfterAttempt(e, START, j, LonePut(id, j, fileId));
            && ReplyOf(e, START, j, a) == Some(Done) && SystemOk(e, w) && Exact(w.store)
            && Files(w.store) == map[j.key := j.content] && id in w.conns && w.conns[id].session == Some(j.session)
  {
    hide Quiet, JobOk, Holds, AttemptAlone, AllSent, Kept, Grown, Next, Handle, ChangeAt, Exact, Files, SafeStep;
    hide ExactStep;
    hide NoFilesYet, CollisionFreeStep;
    var a := LonePut(id, j, fileId);
    var w := AllSent(e, START, j, a);
    LonePutIsAlone(e, id, j, fileId);
    FinishedPut(e, START, j, a);
    var n := AllSentIs(e, START, j, a);
    NoFilesIsExact(w.store);
    EndCompletes(e, w, id, j, fileId, Grown([], j.content, n));
    assert CollisionFreeStep(e, w, Send(id, UploadEnd)) by { NoObjectsNoCollision(e, w, id); }
    assert SystemOk(e, w) && SystemOk(e, Next(e, w, Send(id, UploadEnd))) by {
      QuietIsOk(e, w);
      QuietIsOk(e, Next(e, w, Send(id, UploadEnd)));
    }
    StepOutcome(e, w, Send(id, UploadEnd));
  }

  lemma QuietIsOk(e: Env, y: System)
    requires Quiet(e, y)
    ensures SystemOk(e, y)
  {
  }

  lemma NoFilesIsExact(s: Store)
    requires NoFilesYet(s)
    ensures Exact(s) && Files(s) == map[]
  {
    assert forall k :: KeyOk(s, k);
  }

  lemma EndCompletes(e: Env, y: System, id: int, j: Job, fileId: FileId, bytes: Bytes)
    requires Holds(y, id, j, fileId, bytes)
    ensures SafeStep(e, y, Send(id, UploadEnd)) && ExactStep(e, y, Send(id, UploadEnd))
    ensures var z := Next(e, y, Send(id, UploadEnd)); id in z.conns && z.conns[id].session == Some(j.session)
  {
    hide FinishUpload, FinishRefusal, AfterRefusedFinish;
  }

  lemma OnlyFile(e: Env, s: Store, k: Key, b: Bytes)
    requires DiskOk(e, s.disk) && Exact(s) && Files(s) == map[k := b]
    ensures var m := e.hash(b);
            && FileMd5(s, k) == m && Refs(s, m) == {k} && m in s.disk.objects && ObjectBytes(s.disk, m) == b
  {
    assert k in Files(s) && Files(s)[k] == b;
    var m := FileMd5(s, k);
    assert RefsExact(s, m);
    forall l | l in Refs(s, m) ensures l == k {
      assert KeyOk(s, l) && l in Files(s);
    }
  }

  /** G1 from the empty server: a put, and the same put again with overwrite. Every request is answered with
      success, and the file cannot be read any more. */
  lemma PutTwice(e: Env, id: int, j: Job, fileId: FileId) returns (ls: seq<Label>)
    requires JobOk(e, j) && fileId != []
    ensures j.chunk > 0 && |j.content| < TWO_TO_THE_63
    ensures var first := AfterAttempt(e, START, j, LonePut(id, j, fileId));
            var asks := InstantQuery(j.md5, |j.content|);
            var claims := Client.ClaimOf(j, false, true, HonestClaim(e, j.md5, j.content, Client.ChallengeOf(e, j)));
            var asked := Next(e, first, Send(id, asks));
            && ReplyOf(e, START, j, LonePut(id, j, fileId)) == Some(Done)
            && Files(first.store) == map[j.key := j.content]
            && id in first.conns && Answer(e, first, id, asks) == Hit(Client.ChallengeOf(e, j))
            && id in asked.conns && Answer(e, asked, id, claims) == Done
            && Run(e, START, ls) == Next(e, asked, Send(id, claims)) && !Safe(Run(e, START, ls).store)
            && Lost(Run(e, START, ls).store, j.key, j.md5)
  {
    hide JobOk, Handle, Next, Run, Safe, Lost, Exact, Files, AfterAttempt, ReplyOf, DiskOk, Client.ChallengeOf;
    hide Client.ClaimOf, HonestClaim;
    JobBounds(e, j);
    LonePutShows(e, id, j, fileId);
    var first := AfterAttempt(e, START, j, LonePut(id, j, fileId));
    Client.JobHash(e, j);
    OnlyFile(e, first.store, j.key, j.content);
    PutAgain(e, first, id, j);
    ls := AttemptIsRun(e, START, j, LonePut(id, j, fileId));
    var asks := Send(id, InstantQuery(j.md5, |j.content|));
    var claims := Send(id, Client.ClaimOf(j, false, true, HonestClaim(e, j.md5, j.content, Client.ChallengeOf(e, j))));
    RunMore(e, START, ls, asks);
    RunMore(e, START, ls + [asks], claims);
    ls := ls + [asks] + [claims];
  }
}
