/** Every request against the reference invariants: what it does to the users' files, and the exact
    condition under which it keeps the invariants. */
module Guards {
  import opened Basics
  import opened Disk
  import opened Store
  import opened Transfer
  import opened Handlers
  import opened DiskSafety
  import opened References

  // ---------------------------------------------------------------- the five conditions

  /** An instant upload must not replace the only reference to the content it claims (G1). */
  predicate KeepsClaimed(s: Store, k: Key, m: Md5) {
    !(FileMd5(s, k) == m && Refs(s, m) <= {k})
  }

  /** A file with content must not be renamed to itself (G2). */
  predicate MovesAway(s: Store, from: Key, to: Key) {
    from != to || FileMd5(s, from) == ""
  }

  /** A renamed file must land on no file of another content (G3). */
  predicate LandsOnSame(s: Store, from: Key, to: Key) {
    FileMd5(s, to) == "" || FileMd5(s, to) == FileMd5(s, from)
  }

  /** mkdir (G4) and the renaming of anything but a file (G5) must land on no file content. */
  predicate LandsOnNoFile(s: Store, k: Key) {
    FileMd5(s, k) == ""
  }

  // ---------------------------------------------------------------- operations

  lemma ClearedOk(s: Store, k: Key)
    requires Safe(s)
    ensures Safe(Cleared(s, k)) && (Exact(s) ==> Exact(Cleared(s, k)))
    ensures FileMd5(Cleared(s, k), k) == "" && Files(Cleared(s, k)) == Files(s) - {k}
  {
    if IsFile(s, k) {
      ReleaseSafe(s, k);
      if Exact(s) {
        ReleaseExact(s, k);
      }
    } else {
      assert KeyOk(s, k);
    }
  }

  /** An object survives the release at `k` unless `k` was its last reference. */
  lemma ClearedObject(s: Store, k: Key, m: Md5)
    requires Safe(s) && m != "" && m in s.disk.objects
    ensures m in Cleared(s, k).disk.objects <==> KeepsClaimed(s, k, m)
    ensures m in Cleared(s, k).disk.objects ==> ObjectBytes(Cleared(s, k).disk, m) == ObjectBytes(s.disk, m)
  {
    assert ObjectOk(s, m) && KeyOk(s, k);
    ClearedOk(s, k);
    assert ObjectOk(Cleared(s, k), m);
    if IsFile(s, k) {
      ReleaseSafe(s, k);
      assert FileMd5(s, k) == m ==> (Refs(s, m) - {k} == {} <==> Refs(s, m) <= {k});
    }
  }

  /** `t` keeps the invariants of `s` and shows users the same files. */
  ghost predicate SameFiles(s: Store, t: Store) {
    Safe(t) && Files(t) == Files(s) && (Exact(s) ==> Exact(t))
  }

  /** `t` is `s` with a reference at `k` to the stored content `m`, safe exactly under G1. */
  ghost predicate Claimed(s: Store, k: Key, m: Md5, t: Store) {
    && (Safe(t) <==> KeepsClaimed(s, k, m))
    && (Safe(t) ==> Files(t) == Files(s)[k := ObjectBytes(s.disk, m)])
    && (Safe(t) && Exact(s) ==> Exact(t))
  }

  lemma SpentOk(s: Store, token: Token, m: Md5)
    requires Safe(s)
    ensures SameFiles(s, SpendChallenge(s, token, m))
  {
    SameIndex(s, SpendChallenge(s, token, m));
  }

  /** Replacing what a key holds by a reference to a stored content. */
  lemma ReplaceOk(s: Store, k: Key, m: Md5, size: nat)
    requires Safe(s) && m != "" && m in s.disk.objects && size == |ObjectBytes(s.disk, m)|
    ensures Claimed(s, k, m, AddRef(Cleared(s, k), k, m, size))
  {
    ClearedOk(s, k);
    ClearedObject(s, k, m);
    var cleared := Cleared(s, k);
    assert ObjectOk(cleared, m);
    AddRefSafe(cleared, k, m, size);
    if Exact(s) && m in cleared.disk.objects {
      AddRefExact(cleared, k, m, size);
    }
    var b := ObjectBytes(s.disk, m);
    PutRemoved(Files(s), k, b);
  }

  lemma InstantUploadOk(e: Env, s: Store, token: Token, k: Key, claim: Claim, destExists: bool, overwrite: bool)
    requires DiskOk(e, s.disk) && Safe(s)
    ensures var (t, error) := InstantUpload(e, s, token, k, claim, destExists, overwrite);
            if error.Some? then SameFiles(s, t)
            else claim.md5 in s.disk.objects && Claimed(s, k, claim.md5, t)
  {
    if ClaimRefusal(e, s, token, claim).None? {
      hide Cleared, AddRef, SpendChallenge, Claimed, SameFiles;
      SpentOk(s, token, claim.md5);
      ClaimedOk(s, token, k, claim);
    }
  }

  lemma ClaimedOk(s: Store, token: Token, k: Key, claim: Claim)
    requires Safe(s) && claim.md5 != "" && claim.md5 in s.disk.objects
    requires claim.size == |ObjectBytes(s.disk, claim.md5)|
    ensures Claimed(s, k, claim.md5,
              AddRef(Cleared(SpendChallenge(s, token, claim.md5), k), k, claim.md5, claim.size))
  {
    SpentOk(s, token, claim.md5);
    ReplaceOk(SpendChallenge(s, token, claim.md5), k, claim.md5, claim.size);
  }

  /** Publishing adds an object and changes no other. */
  lemma PublishSafe(e: Env, s: Store, m: Md5, b: Bytes)
    requires DiskOk(e, s.disk) && Safe(s) && |m| == 32 && e.hash(b) == m
    requires m in s.disk.objects ==> NoCollision(e, ObjectBytes(s.disk, m), b)
    ensures var t := Publish(s, m, b);
            SafeBut(t, m) && m in t.disk.objects && ObjectBytes(t.disk, m) == b && Files(t) == Files(s)
  {
    PublishOk(e, s.disk, m, b);
    ObjectAdded(s, Publish(s, m, b), m);
  }

  lemma ObjectAdded(s: Store, t: Store, m: Md5)
    requires Safe(s)
    requires t.rows == s.rows && t.paths == s.paths && t.refs == s.refs
    requires t.sizes == s.sizes[m := |ObjectBytes(t.disk, m)|]
    requires t.disk.objects.Keys == s.disk.objects.Keys + {m}
    requires forall n | n in s.disk.objects :: ObjectBytes(t.disk, n) == ObjectBytes(s.disk, n)
    ensures SafeBut(t, m) && Files(t) == Files(s)
  {
    forall k ensures KeyOk(t, k) {
      assert KeyOk(s, k);
    }
    forall n | n != "" && n != m ensures ObjectOk(t, n) {
      assert ObjectOk(s, n);
    }
    forall k ensures k in Files(t) <==> k in Files(s) {
      assert KeyOk(s, k) && KeyOk(t, k);
    }
  }

  lemma FinishUploadOk(e: Env, s: Store, c: Conn, k: Key)
    requires DiskOk(e, s.disk) && ConnOk(s.disk, c) && CollisionFree(e, s, c, DoEnd)
    requires FinishRefusal(e, s.disk, c.upload).None? && Safe(s)
    ensures var t := FinishUpload(s, k, c.upload);
            && Safe(t) && (Exact(s) ==> Exact(t))
            && Files(t) == Files(s)[k := PartBytes(s.disk, c.upload.part)]
  {
    var up := c.upload;
    var m, b, cleared := up.md5, PartBytes(s.disk, up.part), Cleared(s, k);
    ClearedOk(s, k);
    UnlinkOk(e, s.disk, cleared.disk);
    if m in cleared.disk.objects {
      assert NoCollision(e, ObjectBytes(s.disk, m), b);
    }
    PublishedAndReferenced(e, cleared, k, m, b, up.part);
    PutRemoved(Files(s), k, b);
  }

  lemma PublishedAndReferenced(e: Env, s: Store, k: Key, m: Md5, b: Bytes, p: PartName)
    requires DiskOk(e, s.disk) && Safe(s) && |m| == 32 && e.hash(b) == m && FileMd5(s, k) == ""
    requires m in s.disk.objects ==> NoCollision(e, ObjectBytes(s.disk, m), b)
    ensures var published := Publish(s, m, b);
            var t := AddRef(published.(disk := UnlinkPart(published.disk, p)), k, m, |b|);
            && Safe(t) && (Exact(s) ==> Exact(t))
            && Files(t) == Files(s)[k := b]
  {
    PublishSafe(e, s, m, b);
    var published := Publish(s, m, b);
    UnlinkedPartOk(published, m, p);
    FirstReference(s, published.(disk := UnlinkPart(published.disk, p)), k, m, |b|);
  }

  lemma PutRemoved(files: map<Key, Bytes>, k: Key, b: Bytes)
    ensures (files - {k})[k := b] == files[k := b]
  {
  }

  lemma FirstReference(cleared: Store, ready: Store, k: Key, m: Md5, size: nat)
    requires SafeBut(ready, m) && m != "" && m in ready.disk.objects && size == |ObjectBytes(ready.disk, m)|
    requires ready.rows == cleared.rows && ready.refs == cleared.refs && FileMd5(cleared, k) == ""
    ensures var t := AddRef(ready, k, m, size);
            && Safe(t) && (Exact(cleared) ==> Exact(t))
            && Files(t) == Files(ready)[k := ObjectBytes(ready.disk, m)]
  {
    AddRefSafe(ready, k, m, size);
    if Exact(cleared) {
      forall n | n != "" ensures RefsExact(ready, n) {
        assert RefsExact(cleared, n);
      }
      AddRefExact(ready, k, m, size);
    }
  }

  lemma UnlinkedPartOk(s: Store, m: Md5, p: PartName)
    requires SafeBut(s, m)
    ensures var t := s.(disk := UnlinkPart(s.disk, p));
            SafeBut(t, m) && Files(t) == Files(s) && ObjectBytes(t.disk, m) == ObjectBytes(s.disk, m)
  {
    var t := s.(disk := UnlinkPart(s.disk, p));
    assert forall n :: ObjectBytes(t.disk, n) == ObjectBytes(s.disk, n);
    forall k ensures KeyOk(t, k) {
      assert KeyOk(s, k);
    }
    forall n | n != "" && n != m ensures ObjectOk(t, n) {
      assert ObjectOk(s, n);
    }
  }

  lemma SweptOk(s: Store, k: Key, ks: set<Key>)
    requires Safe(s) && !IsFile(s, k)
    ensures var t := Unindex(Sweep(s, ks), k);
            Safe(t) && (Exact(s) ==> Exact(t)) && Files(t) == Files(s) - ks
  {
    var t := Sweep(s, ks);
    SweepSafe(s, ks);
    assert FileMd5(t, k) == "" && PathMd5(t, k) == "" by { assert KeyOk(s, k) && KeyOk(t, k); }
    if Exact(s) {
      SweepExact(s, ks);
    }
    hide Sweep, Safe, Exact, Files;
    SameIndex(t, Unindex(t, k));
  }

  /** The keys rm forgets: one file, or every file under a physical directory. */
  function Removed(s: Store, k: Key, node: Node): set<Key> {
    if !IsFile(s, k) && node == Directory then Selected(s, k.user, k.path) else {k}
  }

  lemma RemovePathOk(s: Store, k: Key, node: Node)
    requires Safe(s)
    ensures var t := RemovePath(s, k, node);
            Safe(t) && (Exact(s) ==> Exact(t)) && Files(t) == Files(s) - Removed(s, k, node)
  {
    if !IsFile(s, k) && node == Directory {
      hide Sweep, Selected, Release;
      SweptOk(s, k, Selected(s, k.user, k.path));
    } else {
      hide Sweep, Selected, Safe, Exact, Files;
      ReleaseSafe(s, k);
      if Exact(s) {
        ReleaseExact(s, k);
      }
    }
  }

  // ---------------------------------------------------------------- requests

  /** What a request answered with Done means to the users' files. */
  datatype Change = Same | Put(key: Key, content: Bytes) | Erase(keys: set<Key>) | Move(key: Key, to: Key)

  function Apply(files: map<Key, Bytes>, change: Change): map<Key, Bytes> {
    match change
    case Same => files
    case Put(k, b) => files[k := b]
    case Erase(ks) => files - ks
    case Move(from, to) => if from in files then (files - {from})[to := files[from]] else files
  }

  function ChangeOf(s: Store, c: Conn, session: Session, op: Op): Change {
    match op
    case DoEnd => Put(Key(session.userId, c.upload.path), PartBytes(s.disk, c.upload.part))
    case DoInstant(k, _, _, claim, _) => Put(k, ObjectBytes(s.disk, claim.md5))
    case DoRm(k, _, node) => Erase(Removed(s, k, node))
    case DoRename(from, to, _, _) =>
      if !IsFile(s, from) then Same
      else if FileMd5(s, from) == "" then Erase({to})
      else Move(from, to)
    case _ => Same
  }

  /** G1, G2, G4 and G5: what keeps every file readable. */
  predicate SafeGuard(s: Store, op: Op) {
    match op
    case DoInstant(k, _, _, claim, _) => KeepsClaimed(s, k, claim.md5)
    case DoMkdir(k, _, _) => LandsOnNoFile(s, k)
    case DoRename(from, to, _, _) => if IsFile(s, from) then MovesAway(s, from, to) else LandsOnNoFile(s, to)
    case _ => true
  }

  /** G3 as well: what also keeps the references exact. */
  predicate ExactGuard(s: Store, op: Op) {
    SafeGuard(s, op) && (op.DoRename? && IsFile(s, op.key) ==> LandsOnSame(s, op.key, op.to))
  }

  /** `t` is the state after a request that was done: its change is made, and the invariants are kept
      exactly under the request's guards. */
  ghost predicate Changed(s: Store, change: Change, safe: bool, exact: bool, t: Store) {
    && (Safe(t) <==> safe)
    && (Safe(t) ==> Files(t) == Apply(Files(s), change))
    && (Exact(s) ==> (Exact(t) <==> exact))
  }

  /** A refused request shows users nothing; a request that was done makes its change. */
  ghost predicate Served(s: Store, c: Conn, session: Session, op: Op, o: Outcome) {
    if o.reply == Done then Changed(s, ChangeOf(s, c, session, op), SafeGuard(s, op), ExactGuard(s, op), o.store)
    else SameFiles(s, o.store)
  }

  lemma QuietOk(s: Store, c: Conn, session: Session, op: Op, o: Outcome)
    requires Safe(s) && SameFiles(s, o.store)
    requires o.reply == Done ==> op.DoLogin? || op.DoLogout? || op.DoChunk?
    ensures Served(s, c, session, op, o)
  {
  }

  /** Work on parts, challenges and sessions shows users nothing. */
  lemma PartsOnly(s: Store, t: Store)
    requires Safe(s)
    requires t.rows == s.rows && t.paths == s.paths && t.refs == s.refs && t.sizes == s.sizes
    requires t.disk.objects == s.disk.objects
    requires forall m | m in s.disk.objects :: ObjectBytes(t.disk, m) == ObjectBytes(s.disk, m)
    ensures SameFiles(s, t)
  {
    SameIndex(s, t);
  }

  lemma OpenPartShowsNothing(e: Env, s: Store, part: PartName, size: nat)
    requires DiskOk(e, s.disk) && Safe(s)
    ensures SameFiles(s, s.(disk := OpenPart(s.disk, part, size)))
  {
    var d := OpenPart(s.disk, part, size);
    assert forall m | m in s.disk.objects :: ObjectBytes(d, m) == ObjectBytes(s.disk, m);
    PartsOnly(s, s.(disk := d));
  }

  lemma WriteShowsNothing(e: Env, s: Store, i: Inode, offset: nat, data: Bytes)
    requires DiskOk(e, s.disk) && Safe(s) && forall m | m in s.disk.objects :: s.disk.objects[m] != i
    ensures SameFiles(s, s.(disk := Write(s.disk, i, offset, data)))
  {
    var d := Write(s.disk, i, offset, data);
    assert forall m | m in s.disk.objects :: ObjectBytes(d, m) == ObjectBytes(s.disk, m);
    PartsOnly(s, s.(disk := d));
  }

  lemma RefusedFinishShowsNothing(s: Store, up: Upload)
    requires Safe(s)
    ensures SameFiles(s, s.(disk := AfterRefusedFinish(s.disk, up)))
  {
    var d := AfterRefusedFinish(s.disk, up);
    assert forall m | m in s.disk.objects :: ObjectBytes(d, m) == ObjectBytes(s.disk, m);
    PartsOnly(s, s.(disk := d));
  }

  lemma ChallengeShowsNothing(s: Store, token: Token, m: Md5, ch: Challenge)
    requires Safe(s)
    ensures SameFiles(s, IssueChallenge(s, token, m, ch))
  {
    PartsOnly(s, IssueChallenge(s, token, m, ch));
  }

  // ---------------------------------------------------------------- each kind of request

  lemma MkdirOk(s: Store, k: Key)
    requires Safe(s)
    ensures Changed(s, Same, LandsOnNoFile(s, k), LandsOnNoFile(s, k), IndexDir(s, k))
  {
    IndexDirOk(s, k);
  }

  lemma RmOk(s: Store, k: Key, node: Node)
    requires Safe(s)
    ensures Changed(s, Erase(Removed(s, k, node)), true, true, RemovePath(s, k, node))
  {
    RemovePathOk(s, k, node);
  }

  lemma RenameOk(s: Store, from: Key, to: Key, moved: Result<nat>)
    requires Safe(s) && IsFile(s, from)
    ensures Changed(s, if FileMd5(s, from) == "" then Erase({to}) else Move(from, to),
                    MovesAway(s, from, to), MovesAway(s, from, to) && LandsOnSame(s, from, to),
                    RenamePath(s, from, to, moved).0)
  {
    assert KeyOk(s, from);
    RenameFileSafe(s, from, to);
    if MovesAway(s, from, to) {
      RenameFileMoves(s, from, to);
    }
    if Exact(s) {
      RenameFileExact(s, from, to);
    }
  }

  lemma RenameOtherChanges(s: Store, from: Key, to: Key, moved: Result<nat>)
    requires Safe(s) && !IsFile(s, from) && moved.Ok?
    ensures Changed(s, Same, LandsOnNoFile(s, to), LandsOnNoFile(s, to), RenamePath(s, from, to, moved).0)
  {
    RenameOtherOk(s, from, to, moved.value);
  }

  lemma ClaimedChanges(s: Store, k: Key, m: Md5, t: Store)
    requires Claimed(s, k, m, t)
    ensures Changed(s, Put(k, ObjectBytes(s.disk, m)), KeepsClaimed(s, k, m), KeepsClaimed(s, k, m), t)
  {
  }

  lemma EndOk(e: Env, s: Store, c: Conn, k: Key)
    requires DiskOk(e, s.disk) && ConnOk(s.disk, c) && CollisionFree(e, s, c, DoEnd)
    requires FinishRefusal(e, s.disk, c.upload).None? && Safe(s)
    ensures Changed(s, Put(k, PartBytes(s.disk, c.upload.part)), true, true, FinishUpload(s, k, c.upload))
  {
    hide FinishUpload;
    FinishUploadOk(e, s, c, k);
  }

  lemma OnMkdirOk(s: Store, c: Conn, session: Session, op: Op)
    requires Safe(s) && op.DoMkdir?
    ensures Served(s, c, session, op, OnMkdir(s, c, op.key, op.phys, op.made))
  {
    hide IndexDir;
    MkdirOk(s, op.key);
    if op.phys.Err? || op.made.Err? {
      QuietOk(s, c, session, op, OnMkdir(s, c, op.key, op.phys, op.made));
    }
  }

  lemma OnRmOk(s: Store, c: Conn, session: Session, op: Op)
    requires Safe(s) && op.DoRm?
    ensures Served(s, c, session, op, OnRm(s, c, op.key, op.phys, op.node))
  {
    hide RemovePath;
    RmOk(s, op.key, op.node);
    if op.key.path == "/" || op.phys.Err? {
      QuietOk(s, c, session, op, OnRm(s, c, op.key, op.phys, op.node));
    }
  }

  lemma OnRenameOk(s: Store, c: Conn, session: Session, op: Op)
    requires Safe(s) && op.DoRename?
    ensures Served(s, c, session, op, OnRename(s, c, op.key, op.to, op.phys, op.moved))
  {
    if op.phys.Ok? && IsFile(s, op.key) {
      RenameOk(s, op.key, op.to, op.moved);
    } else if op.phys.Ok? && op.moved.Ok? {
      RenameOtherChanges(s, op.key, op.to, op.moved);
    } else {
      QuietOk(s, c, session, op, OnRename(s, c, op.key, op.to, op.phys, op.moved));
    }
  }

  lemma OnInstantOk(e: Env, s: Store, c: Conn, session: Session, op: Op)
    requires DiskOk(e, s.disk) && Safe(s) && op.DoInstant?
    ensures Served(s, c, session, op,
              OnInstant(e, s, c, session.token, op.key, op.phys, op.destExists, op.claim, op.overwrite))
  {
    var o := OnInstant(e, s, c, session.token, op.key, op.phys, op.destExists, op.claim, op.overwrite);
    if op.phys.Ok? {
      InstantUploadOk(e, s, session.token, op.key, op.claim, op.destExists, op.overwrite);
      if o.reply == Done {
        ClaimedChanges(s, op.key, op.claim.md5, o.store);
      }
    }
  }

  lemma OnUploadEndOk(e: Env, s: Store, c: Conn, session: Session)
    requires DiskOk(e, s.disk) && ConnOk(s.disk, c) && CollisionFree(e, s, c, DoEnd) && Safe(s)
    ensures Served(s, c, session, DoEnd, OnUploadEnd(e, s, c, session.userId))
  {
    hide FinishUpload, AfterRefusedFinish;
    if FinishRefusal(e, s.disk, c.upload).None? {
      EndOk(e, s, c, Key(session.userId, c.upload.path));
    } else {
      RefusedFinishShowsNothing(s, c.upload);
      QuietOk(s, c, session, DoEnd, OnUploadEnd(e, s, c, session.userId));
    }
  }

  lemma OnUploadBeginOk(e: Env, s: Store, c: Conn, session: Session, op: Op)
    requires DiskOk(e, s.disk) && Safe(s) && op.DoBegin?
    ensures Served(s, c, session, op, OnUploadBegin(e, s, c, op.key, op.part, op.md5, op.size, op.fileId))
  {
    if op.part.Ok? && BeginRefusal(e, op.md5, op.size).None? {
      OpenPartShowsNothing(e, s, op.part.value, op.size);
    }
    QuietOk(s, c, session, op, OnUploadBegin(e, s, c, op.key, op.part, op.md5, op.size, op.fileId));
  }

  lemma OnUploadChunkOk(e: Env, s: Store, c: Conn, session: Session, op: Op)
    requires DiskOk(e, s.disk) && ConnOk(s.disk, c) && Safe(s) && op.DoChunk?
    ensures Served(s, c, session, op, OnUploadChunk(s, c, op.fileId, op.offset, op.data))
  {
    if ChunkRefusal(c, op.fileId, op.offset, op.data).None? {
      WriteShowsNothing(e, s, c.upload.fd.value, op.offset, op.data);
    }
    QuietOk(s, c, session, op, OnUploadChunk(s, c, op.fileId, op.offset, op.data));
  }

  lemma PerformOk(e: Env, s: Store, c: Conn, session: Session, op: Op)
    requires DiskOk(e, s.disk) && ConnOk(s.disk, c) && CollisionFree(e, s, c, op) && Safe(s)
    ensures Served(s, c, session, op, Perform(e, s, c, session, op))
  {
    hide OnMkdir, OnRm, OnRename, OnInstant, OnUploadBegin, OnUploadChunk, OnUploadEnd;
    hide CollisionFree, DiskOk, ConnOk, Safe, SameFiles;
    match op
    case DoMkdir(k, phys, made) =>
      OnMkdirOk(s, c, session, op);
    case DoRm(k, phys, node) =>
      OnRmOk(s, c, session, op);
    case DoRename(_, _, _, _) =>
      OnRenameOk(s, c, session, op);
    case DoInstant(_, _, _, _, _) =>
      OnInstantOk(e, s, c, session, op);
    case DoBegin(_, _, _, _, _) =>
      OnUploadBeginOk(e, s, c, session, op);
    case DoChunk(_, _, _) =>
      OnUploadChunkOk(e, s, c, session, op);
    case DoEnd =>
      OnUploadEndOk(e, s, c, session);
    case DoQuery(m, size) =>
      ChallengeShowsNothing(s, session.token, m, ChallengeFor(e, session.token, m, size));
      QuietOk(s, c, session, op, Perform(e, s, c, session, op));
    case _ =>
      Untouched(s);
      QuietOk(s, c, session, op, Perform(e, s, c, session, op));
  }

  lemma Untouched(s: Store)
    requires Safe(s)
    ensures SameFiles(s, s)
  {
  }
}
