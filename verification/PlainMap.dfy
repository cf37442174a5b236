/** The store as users see it: a machine on a plain map from (user, path) to bytes, with transition rules and
    guards of its own, and the proof that the five structures together simulate it. */
module PlainMap {
  import opened Basics
  import opened Disk
  import opened Store
  import opened Transfer
  import opened Handlers
  import opened DiskSafety
  import opened References
  import opened Guards
  import opened Runs
  import opened PathTexts
  import Like

  // ---------------------------------------------------------------- the machine

  /** The files, and the paths that are indexed as files without content, as renaming a directory leaves them. */
  datatype Plain = Plain(files: map<Key, Bytes>, blanks: set<Key>)

  /** What a request that was done asked for. */
  datatype Event =
    | Nothing
    | Uploaded(key: Key, md5: Md5, size: nat)
    | Claimed(key: Key, md5: Md5, size: nat)
    | MadeDir(key: Key)
    | Removed(key: Key, node: Node)
    | Renamed(key: Key, to: Key)

  predicate IsUnder(dir: Key, k: Key) {
    k.user == dir.user && Like.Matches(DirPrefix(dir.path) + "%", k.path)
  }

  function Under(ks: set<Key>, dir: Key): set<Key> {
    set k | k in ks && IsUnder(dir, k)
  }

  function Take(a: Plain, k: Key, b: Bytes): Plain {
    Plain(a.files[k := b], a.blanks - {k})
  }

  function Forget(a: Plain, k: Key): Plain {
    Plain(a.files - {k}, a.blanks - {k})
  }

  /** rm: a file, with or without content, goes alone, and a directory takes along what is under it. A renamed directory
      is indexed as a file without content, so it goes alone too and what is under it stays. */
  function RemovedFrom(a: Plain, k: Key, node: Node): Plain {
    if k in a.files || k in a.blanks || node != Directory then Forget(a, k)
    else Plain(a.files - Under(a.files.Keys, k), a.blanks - Under(a.blanks, k))
  }

  function RenamedIn(a: Plain, from: Key, to: Key): Plain {
    if from in a.files then Plain((a.files - {from})[to := a.files[from]], a.blanks - {to})
    else if from in a.blanks then Plain(a.files - {to}, a.blanks + {to} - {from})
    else Plain(a.files, a.blanks + {to})
  }

  /** Some file has the announced md5 and size already. */
  ghost predicate Known(e: Env, a: Plain, l: Key, m: Md5, size: nat) {
    l in a.files && e.hash(a.files[l]) == m && |a.files[l]| == size
  }

  /** The machine's step: it looks at nothing but the map and the event. */
  ghost predicate PlainStep(e: Env, a: Plain, ev: Event, z: Plain) {
    match ev
    case Nothing => z == a
    case Uploaded(k, m, size) => exists b :: e.hash(b) == m && |b| == size && z == Take(a, k, b)
    case Claimed(k, m, size) => exists l :: Known(e, a, l, m, size) && z == Take(a, k, a.files[l])
    case MadeDir(k) => z == Forget(a, k) && k !in a.files
    case Removed(k, node) => z == RemovedFrom(a, k, node)
    case Renamed(from, to) => z == RenamedIn(a, from, to)
  }

  /** G1 to G5 on the map: they can be read off a listing of all files before the request. */
  ghost predicate PlainGuard(e: Env, a: Plain, ev: Event) {
    match ev
    case Claimed(k, m, _) =>
      !(k in a.files && e.hash(a.files[k]) == m && forall l | l in a.files && e.hash(a.files[l]) == m :: l == k)
    case MadeDir(k) => k !in a.files
    case Renamed(from, to) =>
      if from in a.files then from != to && (to in a.files ==> e.hash(a.files[to]) == e.hash(a.files[from]))
      else to !in a.files
    case _ => true
  }

  // ---------------------------------------------------------------- the view

  function Blanks(s: Store): set<Key> {
    set k | k in s.rows && IsFile(s, k) && FileMd5(s, k) == ""
  }

  function View(s: Store): Plain {
    Plain(Files(s), Blanks(s))
  }

  function EventOf(c: Conn, session: Session, op: Op): Event {
    match op
    case DoEnd => Uploaded(Key(session.userId, c.upload.path), c.upload.md5, c.upload.total)
    case DoInstant(k, _, _, claim, _) => Claimed(k, claim.md5, claim.size)
    case DoMkdir(k, _, _) => MadeDir(k)
    case DoRm(k, _, node) => Removed(k, node)
    case DoRename(from, to, _, _) => Renamed(from, to)
    case _ => Nothing
  }

  function EventAt(e: Env, y: System, l: Label): Event {
    if Completes(e, y, l) then EventOf(y.conns[l.id], y.conns[l.id].session.value, OpOf(y, l).value) else Nothing
  }

  /** In a safe state a key is in the map exactly when its row has content. */
  lemma InFiles(s: Store, k: Key)
    requires Safe(s)
    ensures k in Files(s) <==> FileMd5(s, k) != ""
    ensures k in Blanks(s) <==> IsFile(s, k) && FileMd5(s, k) == ""
    ensures IsFile(s, k) <==> k in Files(s) || k in Blanks(s)
    ensures FileMd5(s, k) != "" ==> FileMd5(s, k) in s.disk.objects && Files(s)[k] == ObjectBytes(s.disk, FileMd5(s, k))
  {
    assert KeyOk(s, k);
  }

  lemma HashOfFile(e: Env, s: Store, k: Key)
    requires DiskOk(e, s.disk) && Safe(s) && k in Files(s)
    ensures e.hash(Files(s)[k]) == FileMd5(s, k)
  {
    InFiles(s, k);
  }

  // ---------------------------------------------------------------- guards

  lemma ClaimGuard(e: Env, s: Store, k: Key, m: Md5, size: nat)
    requires DiskOk(e, s.disk) && Exact(s) && m != ""
    ensures KeepsClaimed(s, k, m) <==> PlainGuard(e, View(s), Claimed(k, m, size))
  {
    hide DiskOk, Exact, Files, FileMd5, Refs, Blanks;
    forall l
      ensures l in Refs(s, m) <==> l in Files(s) && e.hash(Files(s)[l]) == m
      ensures FileMd5(s, l) == m <==> l in Files(s) && e.hash(Files(s)[l]) == m
    {
      CarriedBy(e, s, m, l);
    }
  }

  /** Who refers to a content is who has it. */
  lemma CarriedBy(e: Env, s: Store, m: Md5, l: Key)
    requires DiskOk(e, s.disk) && Exact(s) && m != ""
    ensures l in Refs(s, m) <==> l in Files(s) && e.hash(Files(s)[l]) == m
    ensures FileMd5(s, l) == m <==> l in Files(s) && e.hash(Files(s)[l]) == m
  {
    assert RefsExact(s, m);
    InFiles(s, l);
    if l in Files(s) {
      HashOfFile(e, s, l);
    }
  }

  lemma RenameGuard(e: Env, s: Store, from: Key, to: Key)
    requires DiskOk(e, s.disk) && Safe(s)
    ensures PlainGuard(e, View(s), Renamed(from, to)) <==>
              if IsFile(s, from) then MovesAway(s, from, to) && LandsOnSame(s, from, to) else LandsOnNoFile(s, to)
  {
    InFiles(s, from);
    InFiles(s, to);
    if from in Files(s) {
      HashOfFile(e, s, from);
    }
    if to in Files(s) {
      HashOfFile(e, s, to);
    }
  }

  /** The guards of the store are the guards of the map. */
  lemma GuardIsPlain(e: Env, s: Store, c: Conn, session: Session, op: Op)
    requires DiskOk(e, s.disk) && Exact(s) && (op.DoInstant? ==> op.claim.md5 != "")
    ensures ExactGuard(s, op) <==> PlainGuard(e, View(s), EventOf(c, session, op))
  {
    hide Safe, View, PlainGuard, KeepsClaimed, MovesAway, LandsOnSame;
    match op
    case DoInstant(k, _, _, claim, _) => ClaimGuard(e, s, k, claim.md5, claim.size);
    case DoRename(from, to, _, _) => RenameGuard(e, s, from, to);
    case DoMkdir(k, _, _) => MkdirGuard(e, s, k);
    case _ => OpenGuard(e, s, EventOf(c, session, op));
  }

  lemma MkdirGuard(e: Env, s: Store, k: Key)
    requires Safe(s)
    ensures PlainGuard(e, View(s), MadeDir(k)) <==> LandsOnNoFile(s, k)
  {
    InFiles(s, k);
  }

  lemma OpenGuard(e: Env, s: Store, ev: Event)
    requires !ev.Claimed? && !ev.MadeDir? && !ev.Renamed?
    ensures PlainGuard(e, View(s), ev)
  {
  }

  // ---------------------------------------------------------------- rows without content

  lemma AddRefBlanks(s: Store, k: Key, m: Md5, size: nat)
    requires m != ""
    ensures Blanks(AddRef(s, k, m, size)) == Blanks(s) - {k}
  {
  }

  lemma ClearedBlanks(s: Store, k: Key)
    ensures Blanks(Cleared(s, k)) - {k} == Blanks(s) - {k}
  {
  }

  lemma FinishBlanks(s: Store, k: Key, up: Upload)
    requires up.md5 != ""
    ensures Blanks(FinishUpload(s, k, up)) == Blanks(s) - {k}
  {
    ClearedBlanks(s, k);
    var published := Publish(Cleared(s, k), up.md5, PartBytes(s.disk, up.part));
    var ready := published.(disk := UnlinkPart(published.disk, up.part));
    hide Cleared, PublishFile, PartBytes;
    AddRefBlanks(ready, k, up.md5, up.total);
    assert Blanks(ready) == Blanks(Cleared(s, k));
  }

  lemma InstantBlanks(e: Env, s: Store, token: Token, k: Key, claim: Claim, destExists: bool, overwrite: bool)
    requires claim.md5 != ""
    ensures var (t, error) := InstantUpload(e, s, token, k, claim, destExists, overwrite);
            Blanks(t) == if error.None? then Blanks(s) - {k} else Blanks(s)
  {
    var spent := SpendChallenge(s, token, claim.md5);
    assert Blanks(spent) == Blanks(s);
    hide ClaimRefusal, Cleared, AddRef;
    ClearedBlanks(spent, k);
    AddRefBlanks(Cleared(spent, k), k, claim.md5, claim.size);
  }

  lemma RemoveBlanks(s: Store, k: Key, node: Node)
    ensures Blanks(RemovePath(s, k, node)) ==
              if !IsFile(s, k) && node == Directory then Blanks(s) - Under(Blanks(s), k) else Blanks(s) - {k}
  {
    hide Release, Sweep;
    var t := RemovePath(s, k, node);
    if !IsFile(s, k) && node == Directory {
      forall l ensures l in Blanks(t) <==> l in Blanks(s) - Under(Blanks(s), k) {
        assert l in Selected(s, k.user, k.path) <==> l in s.rows && !s.rows[l].isDir && IsUnder(k, l);
      }
    }
  }

  lemma RenameBlanks(s: Store, from: Key, to: Key, moved: Result<nat>)
    requires Safe(s) && (IsFile(s, from) || moved.Ok?)
    ensures Blanks(RenamePath(s, from, to, moved).0) ==
              if FileMd5(s, from) != "" then Blanks(s) - {to} - {from}
              else if IsFile(s, from) then Blanks(s) + {to} - {from}
              else Blanks(s) + {to}
  {
    assert KeyOk(s, from);
    hide Safe;
  }

  lemma DirBlanks(s: Store, k: Key)
    ensures Blanks(IndexDir(s, k)) == Blanks(s) - {k}
  {
  }

  // ---------------------------------------------------------------- each kind of request

  lemma SameRowsSameView(s: Store, t: Store)
    requires t.rows == s.rows && Files(t) == Files(s)
    ensures View(t) == View(s)
  {
    assert forall k :: FileMd5(t, k) == FileMd5(s, k);
  }

  lemma QuietRows(e: Env, s: Store, c: Conn, session: Session, op: Op)
    ensures var o := Perform(e, s, c, session, op);
            o.reply != Done || EventOf(c, session, op) == Nothing ==> o.store.rows == s.rows
  {
    hide FinishUpload, FinishRefusal, AfterRefusedFinish, ClaimRefusal, QueryInstant, OnDownloadChunk, BeginDownload;
    hide PublishFile, WriteRefusal, OpenPart, Cleared, AddRef;
  }

  lemma UploadedStep(e: Env, s: Store, k: Key, up: Upload)
    requires FinishRefusal(e, s.disk, up).None? && up.md5 != ""
    requires Files(FinishUpload(s, k, up)) == Files(s)[k := PartBytes(s.disk, up.part)]
    ensures PlainStep(e, View(s), Uploaded(k, up.md5, up.total), View(FinishUpload(s, k, up)))
  {
    FinishBlanks(s, k, up);
    hide FinishUpload, Files, Blanks;
    var b := PartBytes(s.disk, up.part);
    assert View(FinishUpload(s, k, up)) == Take(View(s), k, b);
  }

  /** Exactness is what makes a claimed content one that some file has already. */
  lemma StoredIsKnown(e: Env, s: Store, m: Md5) returns (l: Key)
    requires DiskOk(e, s.disk) && Exact(s) && m != "" && m in s.disk.objects
    ensures Known(e, View(s), l, m, |ObjectBytes(s.disk, m)|) && Files(s)[l] == ObjectBytes(s.disk, m)
  {
    assert ObjectOk(s, m) && RefsExact(s, m);
    l :| l in Refs(s, m);
    InFiles(s, l);
    HashOfFile(e, s, l);
  }

  lemma ClaimedStep(e: Env, s: Store, token: Token, k: Key, claim: Claim, destExists: bool, overwrite: bool)
    requires DiskOk(e, s.disk) && Exact(s)
    requires InstantUpload(e, s, token, k, claim, destExists, overwrite).1.None?
    requires Files(InstantUpload(e, s, token, k, claim, destExists, overwrite).0) ==
             Files(s)[k := ObjectBytes(s.disk, claim.md5)]
    ensures PlainStep(e, View(s), Claimed(k, claim.md5, claim.size),
                      View(InstantUpload(e, s, token, k, claim, destExists, overwrite).0))
  {
    assert claim.md5 in s.disk.objects && |ObjectBytes(s.disk, claim.md5)| == claim.size;
    assert claim.md5 != "" by { assert |claim.md5| == 32; }
    hide Exact, DiskOk, InstantUpload, Files, Blanks, ObjectBytes;
    var l := StoredIsKnown(e, s, claim.md5);
    InstantBlanks(e, s, token, k, claim, destExists, overwrite);
    var t := InstantUpload(e, s, token, k, claim, destExists, overwrite).0;
    assert View(t) == Take(View(s), k, View(s).files[l]);
  }

  lemma RemovedStep(e: Env, s: Store, k: Key, node: Node)
    requires Safe(s) && Files(RemovePath(s, k, node)) == Files(s) - Guards.Removed(s, k, node)
    ensures PlainStep(e, View(s), Removed(k, node), View(RemovePath(s, k, node)))
  {
    RemoveBlanks(s, k, node);
    InFiles(s, k);
    hide RemovePath, Safe, Blanks;
    if !IsFile(s, k) && node == Directory {
      forall l | l in Files(s) ensures l in Selected(s, k.user, k.path) <==> IsUnder(k, l) {
        assert l in s.rows && !s.rows[l].isDir;
      }
      assert Files(s) - Selected(s, k.user, k.path) == Files(s) - Under(Files(s).Keys, k);
    }
  }

  lemma RenamedStep(e: Env, s: Store, from: Key, to: Key, moved: Result<nat>, t: Store)
    requires Safe(s) && (IsFile(s, from) || moved.Ok?) && t == RenamePath(s, from, to, moved).0
    requires Files(t) == Apply(Files(s), if !IsFile(s, from) then Same
                                         else if FileMd5(s, from) == "" then Erase({to}) else Move(from, to))
    ensures PlainStep(e, View(s), Renamed(from, to), View(t))
  {
    RenameBlanks(s, from, to, moved);
    InFiles(s, from);
    hide RenamePath, Safe, Files, Blanks, FileMd5;
    assert from in Files(s) ==> from !in Blanks(s);
    if from in Files(s) {
      assert Blanks(s) - {to} - {from} == Blanks(s) - {to};
    }
  }

  lemma MadeDirStep(e: Env, s: Store, k: Key)
    requires Safe(s) && FileMd5(s, k) == "" && Files(IndexDir(s, k)) == Files(s)
    ensures PlainStep(e, View(s), MadeDir(k), View(IndexDir(s, k)))
  {
    DirBlanks(s, k);
    InFiles(s, k);
    hide IndexDir, Safe, Files, Blanks;
    assert Files(s) - {k} == Files(s);
  }

  /** A request that is done within its guard is a step of the machine. */
  lemma PerformSimulates(e: Env, s: Store, c: Conn, session: Session, op: Op)
    requires DiskOk(e, s.disk) && ConnOk(s.disk, c) && Exact(s) && ExactGuard(s, op)
    requires Perform(e, s, c, session, op).reply == Done
    requires Files(Perform(e, s, c, session, op).store) == Apply(Files(s), ChangeOf(s, c, session, op))
    ensures PlainStep(e, View(s), EventOf(c, session, op), View(Perform(e, s, c, session, op).store))
  {
    hide DiskOk, Exact, Files, PlainStep, View, FinishUpload, RemovePath, RenamePath, InstantUpload, FinishRefusal;
    hide IndexDir;
    hide QueryInstant, OnDownloadChunk, BeginDownload, KeepsClaimed;
    assert Safe(s) by { ExactIsSafe(s); }
    match op
    case DoEnd =>
      assert c.upload.md5 != "" by { EndMd5(e, s, c); }
      UploadedStep(e, s, Key(session.userId, c.upload.path), c.upload);
    case DoInstant(k, _, destExists, claim, overwrite) =>
      ClaimedStep(e, s, session.token, k, claim, destExists, overwrite);
    case DoMkdir(k, _, _) => MadeDirStep(e, s, k);
    case DoRm(k, _, node) => RemovedStep(e, s, k, node);
    case DoRename(from, to, _, moved) =>
      assert IsFile(s, from) || moved.Ok? by { RenameDone(s, from, to, moved); }
      RenamedStep(e, s, from, to, moved, Perform(e, s, c, session, op).store);
    case _ =>
      QuietRows(e, s, c, session, op);
      SameRowsSameView(s, Perform(e, s, c, session, op).store);
      NothingStep(e, View(s));
  }

  lemma NothingStep(e: Env, a: Plain)
    ensures PlainStep(e, a, Nothing, a)
  {
  }

  lemma EndMd5(e: Env, s: Store, c: Conn)
    requires ConnOk(s.disk, c) && FinishRefusal(e, s.disk, c.upload).None?
    ensures c.upload.md5 != ""
  {
  }

  lemma RenameDone(s: Store, from: Key, to: Key, moved: Result<nat>)
    requires RenamePath(s, from, to, moved).1.None?
    ensures IsFile(s, from) || moved.Ok?
  {
  }

  // ---------------------------------------------------------------- runs

  /** A step that performs nothing leaves the rows alone. */
  lemma IdleRows(e: Env, y: System, l: Label)
    requires OpOf(y, l).None?
    ensures Next(e, y, l).store.rows == y.store.rows
  {
    hide Perform;
  }

  lemma UnfinishedRows(e: Env, y: System, l: Label)
    requires !Completes(e, y, l)
    ensures Next(e, y, l).store.rows == y.store.rows
  {
    if OpOf(y, l).Some? {
      hide Perform;
      QuietRows(e, y.store, y.conns[l.id], y.conns[l.id].session.value, OpOf(y, l).value);
    } else {
      IdleRows(e, y, l);
    }
  }

  lemma ClaimedMd5(e: Env, s: Store, c: Conn, session: Session, op: Op)
    requires DiskOk(e, s.disk) && op.DoInstant? && Perform(e, s, c, session, op).reply == Done
    ensures op.claim.md5 != ""
  {
    hide Cleared, AddRef;
    assert |op.claim.md5| == 32;
  }

  /** One step of the server is one step of the machine, as long as the machine's guard holds. */
  lemma StepSimulates(e: Env, y: System, l: Label)
    requires SystemOk(e, y) && CollisionFreeStep(e, y, l) && Exact(y.store)
    requires PlainGuard(e, View(y.store), EventAt(e, y, l))
    ensures Exact(Next(e, y, l).store)
    ensures PlainStep(e, View(y.store), EventAt(e, y, l), View(Next(e, y, l).store))
  {
    hide Perform, Exact, Safe, DiskOk, ConnOk, PlainGuard, PlainStep, View, Files, ExactGuard, SafeGuard, ChangeOf;
    hide EventOf;
    hide CollisionFreeStep;
    ExactIsSafe(y.store);
    StepOutcome(e, y, l);
    if Completes(e, y, l) {
      var c, op := y.conns[l.id], OpOf(y, l).value;
      if op.DoInstant? {
        ClaimedMd5(e, y.store, c, c.session.value, op);
      }
      GuardIsPlain(e, y.store, c, c.session.value, op);
      SafeIfExact(y.store, op);
      PerformSimulates(e, y.store, c, c.session.value, op);
    } else {
      UnfinishedRows(e, y, l);
      SameRowsSameView(y.store, Next(e, y, l).store);
      NothingStep(e, View(y.store));
    }
  }

  lemma SafeIfExact(s: Store, op: Op)
    requires ExactGuard(s, op)
    ensures SafeGuard(s, op)
  {
  }

  /** The n-th step of a run keeps the machine's guard. */
  ghost predicate Guarded(e: Env, y: System, ls: seq<Label>, n: nat)
    requires n < |ls|
  {
    PlainGuard(e, View(Run(e, y, ls[..n]).store), EventAt(e, Run(e, y, ls[..n]), ls[n]))
  }

  /** The n-th step of a run is a step of the machine. */
  ghost predicate Simulated(e: Env, y: System, ls: seq<Label>, n: nat)
    requires n < |ls|
  {
    PlainStep(e, View(Run(e, y, ls[..n]).store), EventAt(e, Run(e, y, ls[..n]), ls[n]),
              View(Run(e, y, ls[..n + 1]).store))
  }

  /** Over every run of any number of users and connections that keeps the machine's guards, the store stays
      exact and does, step by step, what the plain map does. */
  lemma {:induction false} RefinesPlainMap(e: Env, y: System, ls: seq<Label>)
    requires SystemOk(e, y) && Exact(y.store) && CollisionFreeRun(e, y, ls)
    requires forall n | 0 <= n < |ls| :: Guarded(e, y, ls, n)
    ensures Exact(Run(e, y, ls).store)
    ensures forall n | 0 <= n < |ls| :: Simulated(e, y, ls, n)
  {
    hide Next, SystemOk, Exact, CollisionFreeStep, CollisionFreeRun, PlainGuard, PlainStep, View, EventAt;
    if ls != [] {
      var init, last := ls[..|ls| - 1], ls[|ls| - 1];
      CollisionFreeInit(e, y, ls);
      forall n | 0 <= n < |init| ensures Guarded(e, y, init, n) {
        assert Guarded(e, y, ls, n) && init[..n] == ls[..n] && init[n] == ls[n];
      }
      RefinesPlainMap(e, y, init);
      PublishedContentIsRight(e, y, init);
      assert Guarded(e, y, ls, |init|);
      StepSimulates(e, Run(e, y, init), last);
      forall n | 0 <= n < |ls| ensures Simulated(e, y, ls, n) {
        if n < |init| {
          assert Simulated(e, y, init, n) && init[..n] == ls[..n] && init[..n + 1] == ls[..n + 1] && init[n] == ls[n];
        } else {
          assert ls[..n + 1] == ls;
        }
      }
    }
  }

  lemma StartIsEmpty()
    ensures View(START.store) == Plain(map[], {})
  {
  }
}
