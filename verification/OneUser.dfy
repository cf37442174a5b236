/** One user's files, whatever other users do: a user whose own requests respect the guards loses nothing. */
module OneUser {
  import opened Basics
  import opened Disk
  import opened Store
  import opened Transfer
  import opened Handlers
  import opened DiskSafety
  import opened References
  import opened Guards
  import opened Runs

  /** What a user sees at a key. */
  function Shown(s: Store, k: Key): Option<Bytes> {
    if FileMd5(s, k) == "" then None else Some(ObjectBytes(s.disk, FileMd5(s, k)))
  }

  /** A key that is in order stays so and shows the same. */
  ghost predicate Stays(s: Store, t: Store, k: Key) {
    KeyOk(s, k) ==> KeyOk(t, k) && Shown(t, k) == Shown(s, k)
  }

  lemma StaysTrans(s: Store, t: Store, r: Store, k: Key)
    requires Stays(s, t, k) && Stays(t, r, k)
    ensures Stays(s, r, k)
  {
  }

  // ---------------------------------------------------------------- operations on other keys

  lemma DropRefStays(s: Store, m: Md5, l: Key, k: Key)
    requires k != l
    ensures Stays(s, DropRef(s, m, l), k)
  {
    if KeyOk(s, k) && FileMd5(s, k) == m && m != "" {
      assert k in Refs(s, m) - {l};
    }
  }

  lemma ReleaseStays(s: Store, l: Key, k: Key)
    requires k != l
    ensures Stays(s, Release(s, l), k)
  {
    DropRefStays(s, KeyMd5(s, l), l, k);
    UnindexStays(DropRef(s, KeyMd5(s, l), l), l, k);
    StaysTrans(s, DropRef(s, KeyMd5(s, l), l), Release(s, l), k);
  }

  lemma UnindexStays(s: Store, l: Key, k: Key)
    requires k != l
    ensures Stays(s, Unindex(s, l), k)
  {
  }

  lemma SweepStays(s: Store, ks: set<Key>, k: Key)
    requires k !in ks
    ensures Stays(s, Sweep(s, ks), k)
  {
    if KeyOk(s, k) && FileMd5(s, k) != "" {
      assert k in Refs(s, FileMd5(s, k)) && k !in Released(s, ks, FileMd5(s, k));
      assert FileMd5(s, k) !in Collected(s, ks);
    }
  }

  lemma AddRefStays(s: Store, l: Key, m: Md5, size: nat, k: Key)
    requires k != l
    ensures Stays(s, AddRef(s, l, m, size), k)
  {
  }

  lemma ClearedStays(s: Store, l: Key, k: Key)
    requires k != l
    ensures Stays(s, Cleared(s, l), k)
  {
    ReleaseStays(s, l, k);
  }

  lemma RenamedStays(s: Store, from: Key, to: Key, moved: Result<nat>, k: Key)
    requires k != from && k != to
    ensures Stays(s, RenamePath(s, from, to, moved).0, k)
  {
  }

  lemma MkdirStays(s: Store, l: Key, k: Key)
    requires k != l
    ensures Stays(s, IndexDir(s, l), k)
  {
  }

  lemma RemoveStays(s: Store, l: Key, node: Node, k: Key)
    requires k !in Removed(s, l, node) && k != l
    ensures Stays(s, RemovePath(s, l, node), k)
  {
    if !IsFile(s, l) && node == Directory {
      var ks := Selected(s, l.user, l.path);
      SweepStays(s, ks, k);
      UnindexStays(Sweep(s, ks), l, k);
      StaysTrans(s, Sweep(s, ks), Unindex(Sweep(s, ks), l), k);
    } else {
      ReleaseStays(s, l, k);
    }
  }

  /** Work on parts and challenges. */
  lemma PartsStay(s: Store, t: Store, k: Key)
    requires t.rows == s.rows && t.paths == s.paths && t.refs == s.refs
    requires forall m | m in s.disk.objects :: m in t.disk.objects && ObjectBytes(t.disk, m) == ObjectBytes(s.disk, m)
    ensures Stays(s, t, k)
  {
  }

  lemma InstantStays(e: Env, s: Store, token: Token, l: Key, claim: Claim, destExists: bool, overwrite: bool, k: Key)
    requires k != l || InstantUpload(e, s, token, l, claim, destExists, overwrite).1.Some?
    ensures Stays(s, InstantUpload(e, s, token, l, claim, destExists, overwrite).0, k)
  {
    var spent := SpendChallenge(s, token, claim.md5);
    PartsStay(s, spent, k);
    PartsStay(s, s, k);
    if k != l {
      ClearedStays(spent, l, k);
      AddRefStays(Cleared(spent, l), l, claim.md5, claim.size, k);
      hide Cleared, AddRef, ClaimRefusal, SpendChallenge, Stays;
      StaysTrans(s, spent, Cleared(spent, l), k);
      StaysTrans(s, Cleared(spent, l), AddRef(Cleared(spent, l), l, claim.md5, claim.size), k);
    }
  }

  lemma PublishStays(e: Env, s: Store, m: Md5, b: Bytes, p: PartName, k: Key)
    requires DiskOk(e, s.disk) && |m| == 32 && e.hash(b) == m
    requires m in s.disk.objects ==> NoCollision(e, ObjectBytes(s.disk, m), b)
    ensures var t := Publish(s, m, b);
            Stays(s, t.(disk := UnlinkPart(t.disk, p)), k)
    ensures var t := Publish(s, m, b).disk; m in t.objects && ObjectBytes(UnlinkPart(t, p), m) == b
  {
    PublishOk(e, s.disk, m, b);
    var t := Publish(s, m, b);
    assert forall n :: ObjectBytes(UnlinkPart(t.disk, p), n) == ObjectBytes(t.disk, n);
    PartsStay(s, t.(disk := UnlinkPart(t.disk, p)), k);
  }

  /** The premises of publishing, once the file in the way is gone. */
  lemma ClearedPublish(e: Env, s: Store, c: Conn, l: Key)
    requires DiskOk(e, s.disk) && ConnOk(s.disk, c) && CollisionFree(e, s, c, DoEnd)
    requires FinishRefusal(e, s.disk, c.upload).None?
    ensures var d, up := Cleared(s, l).disk, c.upload;
            && DiskOk(e, d) && |up.md5| == 32 && e.hash(PartBytes(s.disk, up.part)) == up.md5
            && (up.md5 in d.objects ==> NoCollision(e, ObjectBytes(d, up.md5), PartBytes(s.disk, up.part)))
  {
    UnlinkOk(e, s.disk, Cleared(s, l).disk);
    hide Cleared;
  }

  lemma FinishStays(e: Env, s: Store, c: Conn, l: Key, k: Key)
    requires DiskOk(e, s.disk) && ConnOk(s.disk, c) && CollisionFree(e, s, c, DoEnd)
    requires FinishRefusal(e, s.disk, c.upload).None? && k != l
    ensures Stays(s, FinishUpload(s, l, c.upload), k)
  {
    hide Cleared, AddRef, Publish, Stays, DiskOk, ConnOk, CollisionFree, NoCollision;
    var up, b := c.upload, PartBytes(s.disk, c.upload.part);
    ClearedStays(s, l, k);
    ClearedPublish(e, s, c, l);
    PublishStays(e, Cleared(s, l), up.md5, b, up.part, k);
    var published := Publish(Cleared(s, l), up.md5, b);
    var ready := published.(disk := UnlinkPart(published.disk, up.part));
    AddRefStays(ready, l, up.md5, up.total, k);
    StaysTrans(s, Cleared(s, l), ready, k);
    StaysTrans(s, ready, FinishUpload(s, l, up), k);
  }

  // ---------------------------------------------------------------- requests and other keys

  /** The keys a request names: its own, and the files that rm of a directory selects. */
  function Named(s: Store, c: Conn, session: Session, op: Op): set<Key> {
    match op
    case DoMkdir(k, _, _) => {k}
    case DoRm(k, _, node) => Removed(s, k, node) + {k}
    case DoRename(from, to, _, _) => {from, to}
    case DoInstant(k, _, _, _, _) => {k}
    case DoEnd => {Key(session.userId, c.upload.path)}
    case _ => {}
  }

  lemma BeginStays(e: Env, s: Store, c: Conn, op: Op, k: Key)
    requires DiskOk(e, s.disk) && op.DoBegin?
    ensures Stays(s, OnUploadBegin(e, s, c, op.key, op.part, op.md5, op.size, op.fileId).store, k)
  {
    var t := OnUploadBegin(e, s, c, op.key, op.part, op.md5, op.size, op.fileId).store;
    if op.part.Ok? {
      OpenKeepsObjects(e, s.disk, op.part.value, op.size);
    }
    hide OpenPart, DiskOk, ObjectBytes, Stays, BeginRefusal;
    PartsStay(s, t, k);
  }

  lemma OpenKeepsObjects(e: Env, d: Disk, part: PartName, size: nat)
    requires DiskOk(e, d)
    ensures var r := OpenPart(d, part, size);
            forall m | m in d.objects :: m in r.objects && ObjectBytes(r, m) == ObjectBytes(d, m)
  {
  }

  lemma ChunkStays(e: Env, s: Store, c: Conn, op: Op, k: Key)
    requires ConnOk(s.disk, c) && op.DoChunk?
    ensures Stays(s, OnUploadChunk(s, c, op.fileId, op.offset, op.data).store, k)
  {
    hide Overlay;
    var t := OnUploadChunk(s, c, op.fileId, op.offset, op.data).store;
    assert forall m | m in s.disk.objects :: ObjectBytes(t.disk, m) == ObjectBytes(s.disk, m);
    PartsStay(s, t, k);
  }

  lemma EndStays(e: Env, s: Store, c: Conn, session: Session, k: Key)
    requires DiskOk(e, s.disk) && ConnOk(s.disk, c) && CollisionFree(e, s, c, DoEnd)
    requires k != Key(session.userId, c.upload.path) || OnUploadEnd(e, s, c, session.userId).reply != Done
    ensures Stays(s, OnUploadEnd(e, s, c, session.userId).store, k)
  {
    hide FinishUpload, DiskOk, ConnOk, CollisionFree, Stays;
    if FinishRefusal(e, s.disk, c.upload).None? {
      FinishStays(e, s, c, Key(session.userId, c.upload.path), k);
    } else {
      var t := s.(disk := AfterRefusedFinish(s.disk, c.upload));
      assert forall m | m in s.disk.objects :: ObjectBytes(t.disk, m) == ObjectBytes(s.disk, m);
      PartsStay(s, t, k);
    }
  }

  /** Guarded or not, a request changes or breaks no key that it does not name; refused, it changes none. */
  lemma OthersStay(e: Env, s: Store, c: Conn, session: Session, op: Op, k: Key)
    requires DiskOk(e, s.disk) && ConnOk(s.disk, c) && CollisionFree(e, s, c, op)
    requires k !in Named(s, c, session, op) || Perform(e, s, c, session, op).reply != Done
    ensures Stays(s, Perform(e, s, c, session, op).store, k)
  {
    hide OnUploadBegin, OnUploadChunk, OnUploadEnd, InstantUpload, RenamePath, RemovePath, IndexDir, IssueChallenge;
    hide DiskOk, ConnOk, CollisionFree, KeyOk, Removed, OnDownloadChunk, BeginDownload, QueryInstant, ChallengeFor;
    match op
    case DoMkdir(l, _, _) => if k != l { MkdirStays(s, l, k); }
    case DoRm(l, _, node) => if k !in Removed(s, l, node) + {l} { RemoveStays(s, l, node, k); }
    case DoRename(from, to, _, moved) =>
      if k != from && k != to { RenamedStays(s, from, to, moved, k); } else { RefusedRename(s, from, to, moved); }
    case DoInstant(l, _, destExists, claim, overwrite) =>
      if k != l || InstantUpload(e, s, session.token, l, claim, destExists, overwrite).1.Some? {
        InstantStays(e, s, session.token, l, claim, destExists, overwrite, k);
      }
    case DoBegin(_, _, _, _, _) => BeginStays(e, s, c, op, k);
    case DoChunk(_, _, _) => ChunkStays(e, s, c, op, k);
    case DoEnd => EndStays(e, s, c, session, k);
    case DoQuery(m, size) => QueryStays(e, s, c, session.token, m, size, k);
    case _ =>
  }

  lemma RefusedRename(s: Store, from: Key, to: Key, moved: Result<nat>)
    ensures RenamePath(s, from, to, moved).1.Some? ==> RenamePath(s, from, to, moved).0 == s
  {
  }

  lemma QueryStays(e: Env, s: Store, c: Conn, token: Token, m: Md5, size: U64, k: Key)
    ensures Stays(s, OnInstantQuery(e, s, c, token, m, size).store, k)
  {
    hide QueryInstant;
    PartsStay(s, OnInstantQuery(e, s, c, token, m, size).store, k);
  }

  // ---------------------------------------------------------------- a user's own requests

  /** Every key of the user is in order. */
  ghost predicate UserSafe(s: Store, user: int) {
    forall k: Key | k.user == user :: KeyOk(s, k)
  }

  /** What a key shows after a change. */
  function Expected(s: Store, change: Change, k: Key): Option<Bytes> {
    match change
    case Same => Shown(s, k)
    case Put(l, b) => if k == l then Some(b) else Shown(s, k)
    case Erase(ks) => if k in ks then None else Shown(s, k)
    case Move(from, to) => if k == to then Shown(s, from) else if k == from then None else Shown(s, k)
  }

  /** A named key after the request: in order and as the change says. */
  ghost predicate Lands(s: Store, t: Store, change: Change, k: Key) {
    KeyOk(t, k) && Shown(t, k) == Expected(s, change, k)
  }

  lemma OwnMkdir(s: Store, k: Key)
    requires KeyOk(s, k)
    ensures KeyOk(IndexDir(s, k), k) <==> LandsOnNoFile(s, k)
    ensures LandsOnNoFile(s, k) ==> Lands(s, IndexDir(s, k), Same, k)
  {
  }

  lemma OwnRm(s: Store, l: Key, node: Node, k: Key)
    requires KeyOk(s, l) && k in Removed(s, l, node) + {l}
    ensures Lands(s, RemovePath(s, l, node), Erase(Removed(s, l, node)), k)
  {
  }

  lemma OwnRename(s: Store, from: Key, to: Key, moved: Result<nat>)
    requires KeyOk(s, from) && KeyOk(s, to) && IsFile(s, from)
    ensures var t := RenamePath(s, from, to, moved).0;
            && (KeyOk(t, to) <==> MovesAway(s, from, to))
            && (MovesAway(s, from, to) ==>
                  var change := if FileMd5(s, from) == "" then Erase({to}) else Move(from, to);
                  Lands(s, t, change, from) && Lands(s, t, change, to))
  {
  }

  lemma OwnMove(s: Store, from: Key, to: Key, moved: Result<nat>)
    requires KeyOk(s, from) && KeyOk(s, to) && !IsFile(s, from) && moved.Ok?
    ensures var t := RenamePath(s, from, to, moved).0;
            && (KeyOk(t, to) <==> LandsOnNoFile(s, to))
            && (LandsOnNoFile(s, to) ==> Lands(s, t, Same, from) && Lands(s, t, Same, to))
  {
  }

  lemma ClearedClaim(s: Store, k: Key, m: Md5)
    requires KeyOk(s, k) && m != "" && m in s.disk.objects
    ensures m in Cleared(s, k).disk.objects <==> KeepsClaimed(s, k, m) || (!IsFile(s, k))
    ensures m in Cleared(s, k).disk.objects ==> ObjectBytes(Cleared(s, k).disk, m) == ObjectBytes(s.disk, m)
    ensures !IsFile(s, k) ==> KeepsClaimed(s, k, m)
  {
    assert FileMd5(s, k) == m ==> (Refs(s, m) - {k} == {} <==> Refs(s, m) <= {k});
  }

  lemma OwnInstant(e: Env, s: Store, token: Token, k: Key, claim: Claim, destExists: bool, overwrite: bool)
    requires DiskOk(e, s.disk) && KeyOk(s, k)
    requires InstantUpload(e, s, token, k, claim, destExists, overwrite).1.None?
    ensures var t := InstantUpload(e, s, token, k, claim, destExists, overwrite).0;
            && (KeyOk(t, k) <==> KeepsClaimed(s, k, claim.md5))
            && (KeepsClaimed(s, k, claim.md5) ==> Lands(s, t, Put(k, ObjectBytes(s.disk, claim.md5)), k))
  {
    var m := claim.md5;
    assert m in s.disk.objects && claim.size == |ObjectBytes(s.disk, m)| && |m| == 32;
    hide Cleared, DiskOk, ClaimRefusal;
    var spent := SpendChallenge(s, token, m);
    assert KeepsClaimed(spent, k, m) <==> KeepsClaimed(s, k, m);
    ClearedClaim(spent, k, m);
  }

  lemma OwnEnd(e: Env, s: Store, c: Conn, k: Key)
    requires DiskOk(e, s.disk) && ConnOk(s.disk, c) && CollisionFree(e, s, c, DoEnd)
    requires FinishRefusal(e, s.disk, c.upload).None?
    ensures Lands(s, FinishUpload(s, k, c.upload), Put(k, PartBytes(s.disk, c.upload.part)), k)
  {
    hide Cleared, DiskOk, ConnOk, CollisionFree, NoCollision, PublishFile;
    ClearedPublish(e, s, c, k);
    PublishStays(e, Cleared(s, k), c.upload.md5, PartBytes(s.disk, c.upload.part), c.upload.part, k);
  }

  // ---------------------------------------------------------------- one step

  predicate OwnKeys(session: Session, op: Op) {
    && (op.DoInstant? || op.DoRm? || op.DoRename? || op.DoMkdir? ==> op.key.user == session.userId)
    && (op.DoRename? ==> op.to.user == session.userId)
  }

  /** The change touches named keys only, all of them the user's. */
  lemma ChangeIsNamed(s: Store, c: Conn, session: Session, op: Op, k: Key)
    requires OwnKeys(session, op)
    ensures k !in Named(s, c, session, op) ==> Expected(s, ChangeOf(s, c, session, op), k) == Shown(s, k)
    ensures k in Named(s, c, session, op) ==> k.user == session.userId
  {
  }

  /** A named key after a request that was done: in order and as the change says, exactly under the guard. */
  ghost predicate NamedOk(s: Store, t: Store, c: Conn, session: Session, op: Op) {
    if SafeGuard(s, op) then
      forall k | k in Named(s, c, session, op) :: Lands(s, t, ChangeOf(s, c, session, op), k)
    else exists k :: k in Named(s, c, session, op) && !KeyOk(t, k)
  }

  lemma NamedMkdir(s: Store, c: Conn, session: Session, op: Op)
    requires op.DoMkdir? && KeyOk(s, op.key)
    ensures NamedOk(s, IndexDir(s, op.key), c, session, op)
  {
    hide KeyOk, IndexDir;
    OwnMkdir(s, op.key);
    assert op.key in Named(s, c, session, op);
  }

  lemma NamedRm(s: Store, c: Conn, session: Session, op: Op)
    requires op.DoRm? && KeyOk(s, op.key)
    ensures NamedOk(s, RemovePath(s, op.key, op.node), c, session, op)
  {
    forall k | k in Named(s, c, session, op)
      ensures Lands(s, RemovePath(s, op.key, op.node), ChangeOf(s, c, session, op), k)
    {
      OwnRm(s, op.key, op.node, k);
    }
    hide Lands, RemovePath, ChangeOf;
  }

  lemma NamedRename(s: Store, c: Conn, session: Session, op: Op)
    requires op.DoRename? && KeyOk(s, op.key) && KeyOk(s, op.to) && RenamePath(s, op.key, op.to, op.moved).1.None?
    ensures NamedOk(s, RenamePath(s, op.key, op.to, op.moved).0, c, session, op)
  {
    assert IsFile(s, op.key) || op.moved.Ok?;
    hide KeyOk, RenamePath, Lands, IsFile;
    if IsFile(s, op.key) {
      OwnRename(s, op.key, op.to, op.moved);
    } else {
      OwnMove(s, op.key, op.to, op.moved);
    }
    assert op.to in Named(s, c, session, op);
  }

  lemma NamedInstant(e: Env, s: Store, c: Conn, session: Session, op: Op)
    requires DiskOk(e, s.disk) && op.DoInstant? && KeyOk(s, op.key)
    requires InstantUpload(e, s, session.token, op.key, op.claim, op.destExists, op.overwrite).1.None?
    ensures NamedOk(s, InstantUpload(e, s, session.token, op.key, op.claim, op.destExists, op.overwrite).0,
                    c, session, op)
  {
    hide DiskOk, KeyOk, InstantUpload, Lands, KeepsClaimed;
    OwnInstant(e, s, session.token, op.key, op.claim, op.destExists, op.overwrite);
    assert op.key in Named(s, c, session, op);
  }

  lemma NamedEnd(e: Env, s: Store, c: Conn, session: Session)
    requires DiskOk(e, s.disk) && ConnOk(s.disk, c) && CollisionFree(e, s, c, DoEnd)
    requires FinishRefusal(e, s.disk, c.upload).None?
    ensures NamedOk(s, FinishUpload(s, Key(session.userId, c.upload.path), c.upload), c, session, DoEnd)
  {
    hide DiskOk, ConnOk, CollisionFree, FinishUpload, Lands, PartBytes;
    OwnEnd(e, s, c, Key(session.userId, c.upload.path));
  }

  lemma NamedAfter(e: Env, s: Store, c: Conn, session: Session, op: Op)
    requires DiskOk(e, s.disk) && ConnOk(s.disk, c) && CollisionFree(e, s, c, op)
    requires UserSafe(s, session.userId) && OwnKeys(session, op) && Perform(e, s, c, session, op).reply == Done
    ensures NamedOk(s, Perform(e, s, c, session, op).store, c, session, op)
  {
    hide InstantUpload, RenamePath, RemovePath, IndexDir, FinishUpload, FinishRefusal, AfterRefusedFinish, NamedOk;
    hide DiskOk, ConnOk, CollisionFree, KeyOk, Removed, OnUploadBegin, OnUploadChunk, OnInstantQuery;
    match op
    case DoMkdir(_, _, _) => NamedMkdir(s, c, session, op);
    case DoRm(_, _, _) => NamedRm(s, c, session, op);
    case DoRename(_, _, _, _) => NamedRename(s, c, session, op);
    case DoInstant(_, _, _, _, _) => NamedInstant(e, s, c, session, op);
    case DoEnd => NamedEnd(e, s, c, session);
    case _ => NothingNamed(s, Perform(e, s, c, session, op).store, c, session, op);
  }

  lemma NothingNamed(s: Store, t: Store, c: Conn, session: Session, op: Op)
    requires Named(s, c, session, op) == {} && SafeGuard(s, op)
    ensures NamedOk(s, t, c, session, op)
  {
  }

  /** What a step is to one user's files: in order if `safe`, and then as the change says. */
  ghost predicate UserStep(s: Store, t: Store, user: int, change: Change, safe: bool) {
    && (UserSafe(t, user) <==> safe)
    && (safe ==> forall k: Key | k.user == user :: Shown(t, k) == Expected(s, change, k))
  }

  lemma OwnDone(e: Env, s: Store, c: Conn, session: Session, op: Op)
    requires DiskOk(e, s.disk) && ConnOk(s.disk, c) && CollisionFree(e, s, c, op)
    requires UserSafe(s, session.userId) && OwnKeys(session, op) && Perform(e, s, c, session, op).reply == Done
    ensures UserStep(s, Perform(e, s, c, session, op).store, session.userId, ChangeOf(s, c, session, op),
              SafeGuard(s, op))
  {
    hide Perform, DiskOk, ConnOk, CollisionFree, KeyOk, ChangeOf, SafeGuard, Named, Expected, Shown;
    NamedAfter(e, s, c, session, op);
    forall k: Key | k.user == session.userId
      ensures k !in Named(s, c, session, op) ==> Stays(s, Perform(e, s, c, session, op).store, k)
      ensures k !in Named(s, c, session, op) ==> Expected(s, ChangeOf(s, c, session, op), k) == Shown(s, k)
    {
      ChangeIsNamed(s, c, session, op, k);
      if k !in Named(s, c, session, op) {
        OthersStay(e, s, c, session, op, k);
      }
    }
    forall k | k in Named(s, c, session, op) ensures k.user == session.userId {
      ChangeIsNamed(s, c, session, op, k);
    }
  }

  lemma AllStay(s: Store, t: Store, user: int)
    requires UserSafe(s, user) && forall k: Key | k.user == user :: Stays(s, t, k)
    ensures UserStep(s, t, user, Same, true)
  {
  }

  /** The step is a request on a connection of the user's. */
  predicate ByUser(y: System, l: Label, user: int) {
    l.Send? && l.id in y.conns && y.conns[l.id].session.Some? && y.conns[l.id].session.value.userId == user
  }

  lemma IdleStays(e: Env, y: System, l: Label, k: Key)
    requires OpOf(y, l).None?
    ensures Stays(y.store, Next(e, y, l).store, k)
  {
    PartsStay(y.store, Next(e, y, l).store, k);
  }

  /** A user's own step keeps the user's files in order exactly under the guard, and changes them as its request
      says; a step of anybody else, guarded or not, changes none of them. */
  lemma StepForUser(e: Env, y: System, l: Label, user: int)
    requires SystemOk(e, y) && CollisionFreeStep(e, y, l) && UserSafe(y.store, user)
    ensures if ByUser(y, l, user)
            then UserStep(y.store, Next(e, y, l).store, user, ChangeAt(e, y, l), SafeStep(e, y, l))
            else UserStep(y.store, Next(e, y, l).store, user, Same, true)
  {
    hide Perform, Parse, SafeGuard, ChangeOf, UserStep, UserSafe, Stays, DiskOk, ConnOk, CollisionFree, Named;
    var z := Next(e, y, l);
    if OpOf(y, l).None? {
      forall k: Key ensures Stays(y.store, z.store, k) { IdleStays(e, y, l, k); }
      AllStay(y.store, z.store, user);
    } else {
      var c, op := y.conns[l.id], OpOf(y, l).value;
      ParsedKeys(c.session.value, l.request);
      EndIsParsed(c.session.value, l.request);
      OnlyTheEnd(e, y.store, c, op);
      if ByUser(y, l, user) && Completes(e, y, l) {
        OwnDone(e, y.store, c, c.session.value, op);
      } else {
        forall k: Key | k.user == user ensures Stays(y.store, z.store, k) {
          ChangeIsNamed(y.store, c, c.session.value, op, k);
          OthersStay(e, y.store, c, c.session.value, op, k);
        }
        AllStay(y.store, z.store, user);
      }
    }
  }

  // ---------------------------------------------------------------- runs

  /** The files a user sees. */
  function UserFiles(s: Store, user: int): map<Key, Bytes> {
    map k | k in s.rows && k.user == user && FileMd5(s, k) != "" :: ObjectBytes(s.disk, FileMd5(s, k))
  }

  /** They are that user's part of the files. */
  lemma UserFilesAreFiles(s: Store, user: int, k: Key)
    requires UserSafe(s, user)
    ensures k in UserFiles(s, user) <==> k.user == user && k in Files(s)
    ensures k in UserFiles(s, user) ==> UserFiles(s, user)[k] == Files(s)[k]
  {
    if k.user == user {
      assert KeyOk(s, k);
    }
  }

  lemma ShownIsUserFile(s: Store, user: int, k: Key)
    ensures k in UserFiles(s, user) <==> k.user == user && Shown(s, k).Some?
    ensures k in UserFiles(s, user) ==> Shown(s, k) == Some(UserFiles(s, user)[k])
  {
  }

  /** The change is about the user's keys, and what it moves is there. */
  predicate ChangesFor(s: Store, user: int, change: Change) {
    match change
    case Put(k, _) => k.user == user
    case Move(from, to) => from.user == user && to.user == user && Shown(s, from).Some?
    case _ => true
  }

  lemma ApplyShown(s: Store, t: Store, user: int, change: Change)
    requires ChangesFor(s, user, change)
    requires forall k: Key | k.user == user :: Shown(t, k) == Expected(s, change, k)
    ensures UserFiles(t, user) == Apply(UserFiles(s, user), change)
  {
    forall k: Key
      ensures k in UserFiles(t, user) <==> k in Apply(UserFiles(s, user), change)
      ensures k in UserFiles(t, user) ==> UserFiles(t, user)[k] == Apply(UserFiles(s, user), change)[k]
    {
      ShownIsUserFile(s, user, k);
      ShownIsUserFile(t, user, k);
      if change.Move? {
        ShownIsUserFile(s, user, change.key);
      }
      hide UserFiles, Shown;
    }
  }

  lemma OwnChange(e: Env, y: System, l: Label, user: int)
    requires ByUser(y, l, user)
    ensures ChangesFor(y.store, user, ChangeAt(e, y, l))
  {
    hide Perform, Removed;
    if OpOf(y, l).Some? {
      ParsedKeys(y.conns[l.id].session.value, l.request);
    }
  }

  /** A user's files after a run, from the user's own steps alone. */
  function UserFilesAfter(e: Env, y: System, ls: seq<Label>, user: int): map<Key, Bytes> {
    if ls == [] then UserFiles(y.store, user)
    else
      var before, at, last := UserFilesAfter(e, y, ls[..|ls| - 1], user), Run(e, y, ls[..|ls| - 1]), ls[|ls| - 1];
      if ByUser(at, last, user) then Apply(before, ChangeAt(e, at, last)) else before
  }

  /** The user's own steps respect G1, G2, G4 and G5. */
  ghost predicate UserIsCareful(e: Env, y: System, ls: seq<Label>, user: int) {
    forall n | 0 <= n < |ls| && ByUser(Run(e, y, ls[..n]), ls[n], user) :: SafeStep(e, Run(e, y, ls[..n]), ls[n])
  }

  lemma CarefulInit(e: Env, y: System, ls: seq<Label>, user: int)
    requires UserIsCareful(e, y, ls, user) && ls != []
    ensures UserIsCareful(e, y, ls[..|ls| - 1], user)
    ensures var at := Run(e, y, ls[..|ls| - 1]); ByUser(at, ls[|ls| - 1], user) ==> SafeStep(e, at, ls[|ls| - 1])
  {
    hide SafeStep, ByUser;
    var init := ls[..|ls| - 1];
    forall n | 0 <= n < |init| && ByUser(Run(e, y, init[..n]), init[n], user)
      ensures SafeStep(e, Run(e, y, init[..n]), init[n])
    {
      assert init[..n] == ls[..n] && init[n] == ls[n];
    }
  }

  /** Over every run in which one user alone respects the guards, whatever all others do, that user's files stay
      readable and are exactly what the user's own requests made of them. */
  lemma {:induction false} CarefulUserIsSafe(e: Env, y: System, ls: seq<Label>, user: int)
    requires SystemOk(e, y) && CollisionFreeRun(e, y, ls) && UserSafe(y.store, user) && UserIsCareful(e, y, ls, user)
    ensures UserSafe(Run(e, y, ls).store, user)
    ensures UserFiles(Run(e, y, ls).store, user) == UserFilesAfter(e, y, ls, user)
  {
    hide Next, SystemOk, CollisionFreeStep, CollisionFreeRun, UserSafe, UserFiles, SafeStep, ByUser, ChangeAt;
    hide UserIsCareful, Apply;
    if ls != [] {
      var init, last := ls[..|ls| - 1], ls[|ls| - 1];
      CollisionFreeInit(e, y, ls);
      CarefulInit(e, y, ls, user);
      CarefulUserIsSafe(e, y, init, user);
      PublishedContentIsRight(e, y, init);
      StepForUser(e, Run(e, y, init), last, user);
      UserFilesStep(e, Run(e, y, init), last, user);
    }
  }

  lemma UserFilesStep(e: Env, y: System, l: Label, user: int)
    requires if ByUser(y, l, user)
             then UserStep(y.store, Next(e, y, l).store, user, ChangeAt(e, y, l), SafeStep(e, y, l))
             else UserStep(y.store, Next(e, y, l).store, user, Same, true)
    requires ByUser(y, l, user) ==> SafeStep(e, y, l)
    ensures UserSafe(Next(e, y, l).store, user)
    ensures UserFiles(Next(e, y, l).store, user) ==
              if ByUser(y, l, user) then Apply(UserFiles(y.store, user), ChangeAt(e, y, l))
              else UserFiles(y.store, user)
  {
    hide Next, ByUser, ChangeAt, SafeStep, Shown, Expected, UserFiles, UserSafe;
    if ByUser(y, l, user) {
      OwnChange(e, y, l, user);
      ApplyShown(y.store, Next(e, y, l).store, user, ChangeAt(e, y, l));
    } else {
      ApplyShown(y.store, Next(e, y, l).store, user, Same);
    }
  }
}
