/** What happens without G6 and G7: files that keep their rows, references and objects, and whose paths PathGuard
    refuses from then on; and why links under a user's root would take more than these guards. */
module TreeBreaches {
  import opened Basics
  import opened Disk
  import opened Store
  import opened Transfer
  import opened Handlers
  import opened DiskSafety
  import opened References
  import opened Guards
  import opened Runs
  import opened Paths
  import opened PathTexts
  import opened Trees
  import opened Breaches
  import F = FileSystems
  import D = FileTrees
  import R = Resolution
  import Text

  // ---------------------------------------------------------------- a file whose path is refused

  /** The path a request is about. */
  function PathIn(r: Request): Option<string> {
    match r
    case Mkdir(path, _, _) => Some(path)
    case Rm(path, _, _) => Some(path)
    case Rename(path, _, _, _) => Some(path)
    case Instant(path, _, _, _, _) => Some(path)
    case UploadBegin(path, _, _, _, _) => Some(path)
    case DownloadBegin(path, _, _) => Some(path)
    case _ => None
  }

  /** Every request about a key whose directory is missing is refused, whatever the index holds. */
  lemma StrayIsRefused(e: Env, homes: Homes, fs: F.FileSystem, s: Store, c: Conn, r: Request, k: Key)
    requires PlainTrees(homes, fs) && !Reach(homes, fs, k)
    requires c.session.Some? && c.session.value.userId in homes && PathIn(r).Some?
    requires KeyOf(c.session.value, PathIn(r).value) == Ok(k)
    requires r.Rename? ==> KeyOf(c.session.value, r.to).Ok?
    requires Answered(homes, fs, c.session.value, r)
    ensures Handle(e, s, c, r).reply == Refused(NotFound) && Handle(e, s, c, r).store == s
  {
    hide KeyOf, BeginRefusal, BeginUpload, RemovePath, RenamePath, InstantUpload, BeginDownload, PlainTrees;
    NowhereIsNotFound(homes, fs, k);
    hide Place, Existing, Reach;
    if k.path == "/" {
      RootIsReached(homes, fs, c.session.value, PathIn(r).value, k);
    }
  }

  lemma RootIsReached(homes: Homes, fs: F.FileSystem, session: Session, path: string, k: Key)
    requires PlainTrees(homes, fs) && session.userId in homes && KeyOf(session, path) == Ok(k) && k.path == "/"
    ensures Reach(homes, fs, k)
  {
    hide KeyOf;
    KeyIsGood(session, path);
    NormalNames(k);
    PlainPlace(homes, fs, k);
    assert homes[k.user] + [] == homes[k.user];
  }

  lemma NowhereIsNotFound(homes: Homes, fs: F.FileSystem, k: Key)
    requires PlainTrees(homes, fs) && !Reach(homes, fs, k)
    ensures Place(homes, fs, k, false) == Err(NotFound) && Existing(homes, fs, k) == Err(NotFound)
  {
    if k.user in homes {
      PlainPlace(homes, fs, k);
    }
  }

  // ---------------------------------------------------------------- trees for the examples

  /** The directories on the way to `p`, and nothing else. */
  function TreeOf(p: F.Path): F.FileSystem {
    map q | q in Prefixes(p) :: F.Directory
  }

  function Prefixes(p: F.Path): set<F.Path> {
    set n: nat | n <= |p| :: p[..n]
  }

  lemma InTreeOf(p: F.Path, q: F.Path)
    ensures q in TreeOf(p) <==> q <= p
  {
    if q <= p {
      assert q == p[..|q|];
    }
  }

  lemma TreeIsPlain(user: int, home: F.Path, p: F.Path)
    requires home <= p && forall c | c in p :: F.FileName(c)
    ensures PlainTrees(map[user := home], TreeOf(p))
  {
    hide TreeOf;
    assert F.WellFormed(TreeOf(p)) by { TreeIsWellFormed(p); }
    InTreeOf(p, home);
    forall q | q in TreeOf(p) ensures TreeOf(p)[q] == F.Directory { OnlyDirectoriesThere(p, q); }
    hide F.WellFormed;
  }

  lemma OnlyDirectoriesThere(p: F.Path, q: F.Path)
    requires q in TreeOf(p)
    ensures TreeOf(p)[q] == F.Directory
  {
  }

  lemma TreeIsWellFormed(p: F.Path)
    requires forall c | c in p :: F.FileName(c)
    ensures F.WellFormed(TreeOf(p))
  {
    InTreeOf(p, []);
    forall q | q in TreeOf(p) && q != []
      ensures F.Parent(q) in TreeOf(p) && F.FileName(q[|q| - 1])
    {
      InTreeOf(p, q);
      InTreeOf(p, F.Parent(q));
      assert q[|q| - 1] == p[|q| - 1];
    }
  }

  /** The key of a clean name in the user's root, and of a name in a directory there. */
  function NameKey(user: int, names: seq<string>): Key {
    Key(user, PathText(names))
  }

  lemma NameKeyIs(session: Session, names: seq<string>)
    requires NormalForm(names)
    ensures KeyOf(session, Text.Join(names, '/')) == Ok(NameKey(session.userId, names))
    ensures NamesOf(NameKey(session.userId, names)) == names && NormalPath(PathText(names))
  {
    NormalizeJoin(names);
    ComponentsOfJoin(names);
    assert PathText(names)[1..] == Text.Join(names, '/');
  }

  // ---------------------------------------------------------------- G6

  /** Renaming anything but a file leaves every file under its old path where PathGuard finds no way to it. */
  lemma RenamedAway(e: Env, homes: Homes, w: World, l: Label, k: Key)
    requires WorldOk(homes, w) && AnsweredStep(homes, w, l) && SystemOk(e, w.system)
    requires Completes(e, w.system, l) && OpOf(w.system, l).value.DoRename?
    requires var from := OpOf(w.system, l).value.key;
             !IsFile(w.system.store, from) && FileMd5(w.system.store, k) != "" && StrictlyUnder(from, k)
    requires Reach(homes, w.fs, k)
    ensures var z := WorldNext(e, homes, w, l);
            FileMd5(z.system.store, k) == FileMd5(w.system.store, k) && !Reach(homes, z.fs, k)
  {
    hide PlainTrees, Perform, Parse, Answered, Place, Existing, Moved, MoveRefusal, FileMd5, IsFile, StrictlyUnder;
    hide SystemOk, Handle;
    var c, op, fs := w.system.conns[l.id], OpOf(w.system, l).value, w.fs;
    var session := c.session.value;
    ParsedIsGood(homes, fs, session, l.request);
    DoneIsAccepted(e, w.system.store, c, session, op);
    ContentAfter(e, w.system.store, c, session, op);
    PerformIsNext(e, w.system, l);
    RenamePlaces(homes, fs, session, op.key, op.to);
    RenameTree(homes, fs, session, op.key, op.to);
    var p, q := Existing(homes, fs, op.key).value, Place(homes, fs, op.to, false).value;
    NotThere(fs, p, q);
    assert !StrictlyUnder(op.key, op.to) by { NotInside(homes, op.key, op.to, fs); }
    NotUnderItself(op.key);
    MovedReach(homes, fs, op.key, q, k);
  }

  lemma NotThere(fs: F.FileSystem, p: F.Path, q: F.Path)
    requires MoveRefusal(fs, p, q).None?
    ensures q !in fs && !(p <= q)
  {
  }

  lemma NotInside(homes: Homes, from: Key, to: Key, fs: F.FileSystem)
    requires from.user in homes && to.user in homes && from.user == to.user
    requires !(homes[from.user] + NamesOf(from) <= homes[to.user] + NamesOf(to))
    ensures !StrictlyUnder(from, to)
  {
    if StrictlyUnder(from, to) {
      PrefixUnder(homes[from.user], NamesOf(from), NamesOf(to));
    }
  }

  /** The rename of directory `d`, in which `f` is the only file, to `g`. */
  function AwayLabel(id: int, home: F.Path, d: string, g: string, size: nat): Label {
    Send(id, Rename(d, g, Ok(PathText(home + [g])), Ok(size)))
  }

  function AwayWorld(e: Env, id: int, session: Session, home: F.Path, d: string, f: string, b: Bytes): World {
    World(Alone(id, WithFile(e, EMPTY, NameKey(session.userId, [d, f]), b), session), TreeOf(home + [d]), map[])
  }

  lemma AwayWorldOk(e: Env, id: int, session: Session, home: F.Path, d: string, f: string, b: Bytes)
    requires (forall c | c in home :: F.FileName(c)) && NormalForm([d, f]) && |e.hash(b)| == 32
    ensures var w, homes, k := AwayWorld(e, id, session, home, d, f, b), map[session.userId := home],
              NameKey(session.userId, [d, f]);
            && WorldOk(homes, w) && SystemOk(e, w.system) && Exact(w.system.store)
            && Files(w.system.store) == map[k := b] && (forall l | FileMd5(w.system.store, l) != "" :: l == k)
            && FileMd5(w.system.store, k) == e.hash(b) && !IsFile(w.system.store, NameKey(session.userId, [d]))
            && Reachable(homes, w.fs, w.system.store)
  {
    hide TreeOf, DiskOk, Exact, SystemOk, NormalPath, NormalForm, PlainTrees, NamesOf;
    var k, homes := NameKey(session.userId, [d, f]), map[session.userId := home];
    assert d in [d, f] && F.FileName(d) by { CleanNames(d, f); }
    TreeIsPlain(session.userId, home, home + [d]);
    EmptyIsGood(e);
    WithFileIsGood(e, EMPTY, k, b);
    AloneIsGood(e, id, WithFile(e, EMPTY, k, b), session);
    NameKeyIs(session, [d, f]);
    assert [d, f][..1] == [d];
    ReachIs(homes, TreeOf(home + [d]), k);
    InTreeOf(home + [d], home + [d]);
    assert NameKey(session.userId, [d]) != k by { TwoNames(session.userId, d, f); }
  }

  lemma CleanNames(d: string, f: string)
    requires NormalForm([d, f])
    ensures Clean(d) && Clean(f) && F.FileName(d) && NormalForm([d])
  {
    assert d in [d, f] && f in [d, f];
  }

  lemma TwoNames(user: int, d: string, f: string)
    ensures NameKey(user, [d]) != NameKey(user, [d, f])
  {
    assert [d, f][..1] == [d];
  }

  lemma AwayAnswered(e: Env, id: int, session: Session, home: F.Path, d: string, f: string, g: string, b: Bytes,
                     size: nat)
    requires (forall c | c in home :: F.FileName(c)) && NormalForm([d, f]) && Clean(g) && d != g
    ensures AnsweredStep(map[session.userId := home], AwayWorld(e, id, session, home, d, f, b),
              AwayLabel(id, home, d, g, size))
  {
    hide TreeOf, WithFile, KeyOf, PlainTrees, Place, Existing, NamesOf;
    var homes, fs, kd, kg := map[session.userId := home], TreeOf(home + [d]), NameKey(session.userId, [d]),
        NameKey(session.userId, [g]);
    CleanNames(d, f);
    OneName(session, d);
    OneName(session, g);
    TreeIsPlain(session.userId, home, home + [d]);
    PlainPlace(homes, fs, kd);
    PlainPlace(homes, fs, kg);
    assert F.Parent([d]) == [] && F.Parent([g]) == [] && home + [] == home;
    InTreeOf(home + [d], home);
    InTreeOf(home + [d], home + [d]);
    AwayMoves(home, d, g);
  }

  lemma OneName(session: Session, d: string)
    requires Clean(d)
    ensures KeyOf(session, d) == Ok(NameKey(session.userId, [d])) && NamesOf(NameKey(session.userId, [d])) == [d]
  {
    hide KeyOf, NamesOf;
    NameKeyIs(session, [d]);
    assert Text.Join([d], '/') == d;
  }

  lemma AwayMoves(home: F.Path, d: string, g: string)
    requires d != g
    ensures MoveRefusal(TreeOf(home + [d]), home + [d], home + [g]).None?
  {
    InTreeOf(home + [d], home + [d]);
    InTreeOf(home + [d], home + [g]);
    InTreeOf(home + [d], home);
    assert F.Parent(home + [g]) == home;
    assert (home + [d])[|home|] == d && (home + [g])[|home|] == g;
  }

  /** In every world that is in order: the renaming of anything but a file that has file `k` under it is done, keeps
      references exact and changes no file, and from then on `k` cannot be downloaded. */
  lemma WayLost(e: Env, homes: Homes, w: World, l: Label, session: Session, k: Key)
    requires WorldOk(homes, w) && AnsweredStep(homes, w, l) && SystemOk(e, w.system)
    requires CollisionFreeStep(e, w.system, l)
    requires Exact(w.system.store) && k in Files(w.system.store) && Reach(homes, w.fs, k)
    requires Completes(e, w.system, l) && w.system.conns[l.id].session == Some(session)
    requires var op := OpOf(w.system, l).value;
             && op.DoRename? && !IsFile(w.system.store, op.key) && LandsOnNoFile(w.system.store, op.to)
             && StrictlyUnder(op.key, k)
    ensures var z := WorldNext(e, homes, w, l);
            && Exact(z.system.store) && Files(z.system.store) == Files(w.system.store)
            && NoDownload(e, homes, z, l.id, session, k)
  {
    hide WorldOk, SystemOk, Exact, AnsweredStep, CollisionFreeStep, Perform, Parse, NoDownload, Reach, StrictlyUnder;
    hide Answered;
    assert Safe(w.system.store) by { ExactIsSafe(w.system.store); }
    MoveIsGuarded(w.system.store, w.system.conns[l.id], session, OpOf(w.system, l).value);
    StepOutcome(e, w.system, l);
    RenamedAway(e, homes, w, l, k);
    StepKeepsWorld(e, homes, w, l);
    RenameKeepsSession(e, w.system, l);
    NoWayNoDownload(e, homes, WorldNext(e, homes, w, l), l.id, session, k);
  }

  lemma MoveIsGuarded(s: Store, c: Conn, session: Session, op: Op)
    requires op.DoRename? && !IsFile(s, op.key) && LandsOnNoFile(s, op.to)
    ensures SafeGuard(s, op) && ExactGuard(s, op) && ChangeOf(s, c, session, op) == Same
  {
  }

  lemma RenameKeepsSession(e: Env, y: System, l: Label)
    requires OpOf(y, l).Some? && OpOf(y, l).value.DoRename?
    ensures l.id in Next(e, y, l).conns && Next(e, y, l).conns[l.id].session == y.conns[l.id].session
  {
    hide RenamePath, KeyOf;
  }

  /** G6 is needed: such a world, with one file in the directory that is renamed. */
  lemma DirectoryRenamedAway(e: Env, id: int, session: Session, home: F.Path, d: string, f: string, g: string, b: Bytes,
                             size: nat)
    requires (forall c | c in home :: F.FileName(c)) && NormalForm([d, f]) && Clean(g) && d != g && |e.hash(b)| == 32
    ensures var homes, w, l := map[session.userId := home], AwayWorld(e, id, session, home, d, f, b),
              AwayLabel(id, home, d, g, size);
            var z, k := WorldNext(e, homes, w, l), NameKey(session.userId, [d, f]);
            && WorldOk(homes, w) && SystemOk(e, w.system) && Exact(w.system.store)
            && Reachable(homes, w.fs, w.system.store)
            && AnsweredStep(homes, w, l) && Completes(e, w.system, l)
            && Exact(z.system.store) && Files(z.system.store) == map[k := b] && NoDownload(e, homes, z, id, session, k)
  {
    hide WorldOk, SystemOk, Exact, AnsweredStep, CollisionFreeStep, Files, Reachable, Completes, WorldNext, NoDownload;
    hide StrictlyUnder, LandsOnNoFile, AwayLabel;
    var homes, w, l := map[session.userId := home], AwayWorld(e, id, session, home, d, f, b),
        AwayLabel(id, home, d, g, size);
    AwayWorldOk(e, id, session, home, d, f, b);
    AwayAnswered(e, id, session, home, d, f, g, b, size);
    AwayDone(e, id, session, home, d, f, g, b, size);
    FirstIsAbove(session, d, f);
    ReachesAt(homes, w.fs, w.system.store, NameKey(session.userId, [d, f]));
    WayLost(e, homes, w, l, session, NameKey(session.userId, [d, f]));
  }

  /** What the rename is to the state machine. */
  lemma AwayDone(e: Env, id: int, session: Session, home: F.Path, d: string, f: string, g: string, b: Bytes, size: nat)
    requires (forall c | c in home :: F.FileName(c)) && NormalForm([d, f]) && Clean(g) && d != g && |e.hash(b)| == 32
    ensures var w, l := AwayWorld(e, id, session, home, d, f, b), AwayLabel(id, home, d, g, size);
            && Completes(e, w.system, l) && CollisionFreeStep(e, w.system, l)
            && l.id == id && id in w.system.conns && w.system.conns[id].session == Some(session)
            && OpOf(w.system, l).Some? && OpOf(w.system, l).value.DoRename?
            && OpOf(w.system, l).value.key == NameKey(session.userId, [d])
            && LandsOnNoFile(w.system.store, OpOf(w.system, l).value.to)
  {
    hide KeyOf, WithFile, Answer, Next, TreeOf, CollisionFreeStep, Completes, OpOf, FileMd5, SystemOk, Exact, WorldOk;
    hide Files, Reachable;
    CleanNames(d, f);
    OneName(session, d);
    OneName(session, g);
    var s := WithFile(e, EMPTY, NameKey(session.userId, [d, f]), b);
    RenameIs(e, id, s, session, d, g, NameKey(session.userId, [d]), NameKey(session.userId, [g]), PathText(home + [g]),
        size);
    AwayWorldOk(e, id, session, home, d, f, b);
    assert NameKey(session.userId, [g]) != NameKey(session.userId, [d, f]) by { OtherName(session, d, f, g); }
  }

  lemma OtherName(session: Session, d: string, f: string, g: string)
    requires NormalForm([d, f]) && Clean(g)
    ensures NameKey(session.userId, [g]) != NameKey(session.userId, [d, f])
  {
    hide NamesOf, NormalForm, Clean;
    assert NormalForm([g]) by { assert forall c | c in [g] :: c == g; OneClean(g); }
    NameKeyIs(session, [g]);
    NameKeyIs(session, [d, f]);
    assert |[g]| != |[d, f]|;
  }

  lemma OneClean(g: string)
    requires Clean(g)
    ensures NormalForm([g])
  {
  }

  lemma FirstIsAbove(session: Session, d: string, f: string)
    requires NormalForm([d, f])
    ensures StrictlyUnder(NameKey(session.userId, [d]), NameKey(session.userId, [d, f]))
  {
    hide NamesOf;
    CleanNames(d, f);
    NameKeyIs(session, [d]);
    NameKeyIs(session, [d, f]);
    assert [d, f][..1] == [d];
  }

  /** Whatever path text stands for the key, download_begin is refused. */
  ghost predicate NoDownload(e: Env, homes: Homes, w: World, id: int, session: Session, k: Key) {
    && id in w.system.conns && w.system.conns[id].session == Some(session)
    && forall path, phys, fileId ::
         KeyOf(session, path) == Ok(k) && Answered(homes, w.fs, session, DownloadBegin(path, phys, fileId)) ==>
         Handle(e, w.system.store, w.system.conns[id], DownloadBegin(path, phys, fileId)).reply == Refused(NotFound)
  }

  lemma NoWayNoDownload(e: Env, homes: Homes, w: World, id: int, session: Session, k: Key)
    requires WorldOk(homes, w) && !Reach(homes, w.fs, k)
    requires id in w.system.conns && w.system.conns[id].session == Some(session)
    ensures NoDownload(e, homes, w, id, session, k)
  {
    hide Handle, KeyOf, Answered, Reach, PlainTrees;
    forall path, phys, fileId |
      KeyOf(session, path) == Ok(k) && Answered(homes, w.fs, session, DownloadBegin(path, phys, fileId))
      ensures Handle(e, w.system.store, w.system.conns[id], DownloadBegin(path, phys, fileId)).reply ==
              Refused(NotFound)
    {
      StrayIsRefused(e, homes, w.fs, w.system.store, w.system.conns[id], DownloadBegin(path, phys, fileId), k);
    }
  }

  // ---------------------------------------------------------------- G7

  /** In every world that is in order: an upload that ends after its directory has gone is done and keeps references
      exact, and the new file cannot be downloaded. */
  lemma EndedNowhere(e: Env, homes: Homes, w: World, l: Label, session: Session, k: Key)
    requires WorldOk(homes, w) && AnsweredStep(homes, w, l) && SystemOk(e, w.system)
    requires CollisionFreeStep(e, w.system, l)
    requires Exact(w.system.store) && Completes(e, w.system, l) && w.system.conns[l.id].session == Some(session)
    requires OpOf(w.system, l) == Some(DoEnd) && k == EndKey(w.system.conns[l.id], session) && !Reach(homes, w.fs, k)
    ensures var z := WorldNext(e, homes, w, l);
            && Exact(z.system.store) && NoDownload(e, homes, z, l.id, session, k)
            && Files(z.system.store) ==
               Files(w.system.store)[k := PartBytes(w.system.store.disk, w.system.conns[l.id].upload.part)]
  {
    hide WorldOk, SystemOk, Exact, AnsweredStep, CollisionFreeStep, Perform, Parse, NoDownload, Reach, Answered;
    hide PartBytes;
    assert Safe(w.system.store) by { ExactIsSafe(w.system.store); }
    StepOutcome(e, w.system, l);
    StepKeepsWorld(e, homes, w, l);
    EndKeepsTree(e, homes, w, l);
    EndKeepsSession(e, w.system, l);
    NoWayNoDownload(e, homes, WorldNext(e, homes, w, l), l.id, session, k);
  }

  lemma EndKeepsTree(e: Env, homes: Homes, w: World, l: Label)
    requires WorldOk(homes, w) && OpOf(w.system, l) == Some(DoEnd)
    ensures TreeAfter(e, homes, w, l) == w.fs
  {
    hide Completes, PlainTrees, InAHome, Unlinked;
    if l.id in w.dests {
      UnlinkIsNothing(homes, w.fs, w.dests[l.id]);
    }
  }

  lemma EndKeepsSession(e: Env, y: System, l: Label)
    requires OpOf(y, l) == Some(DoEnd)
    ensures l.id in Next(e, y, l).conns && Next(e, y, l).conns[l.id].session == y.conns[l.id].session
  {
    hide FinishUpload, FinishRefusal, AfterRefusedFinish, KeyOf;
  }

  /** An upload of `b` to d/f that has sent everything, when d is not there. */
  function OrphanWorld(e: Env, id: int, session: Session, home: F.Path, d: string, f: string, b: Bytes,
                       fileId: FileId): World
    requires |b| < TWO_TO_THE_64
  {
    var part := PartName(session.username, e.hash(b), f);
    var up := Upload(fileId, PathText([d, f]), part, e.hash(b), |b|, |b|, Some(0));
    World(System(EMPTY.(disk := Disk(map[], map[part := 0], [b])), map[id := Conn(Some(session), up, NO_DOWNLOAD)]),
          TreeOf(home), map[id := home + [d, f]])
  }

  /** G7 is needed: such a world. */
  lemma UploadEndedNowhere(e: Env, id: int, session: Session, home: F.Path, d: string, f: string, b: Bytes,
                           fileId: FileId)
    requires (forall c | c in home :: F.FileName(c)) && NormalForm([d, f]) && |e.hash(b)| == 32 && |b| < TWO_TO_THE_64
    ensures var homes, w, l := map[session.userId := home], OrphanWorld(e, id, session, home, d, f, b, fileId),
              Send(id, UploadEnd);
            var z, k := WorldNext(e, homes, w, l), NameKey(session.userId, [d, f]);
            && WorldOk(homes, w) && SystemOk(e, w.system) && Exact(w.system.store)
            && Reachable(homes, w.fs, w.system.store)
            && Completes(e, w.system, l) && Exact(z.system.store) && Files(z.system.store) == map[k := b]
            && NoDownload(e, homes, z, id, session, k)
  {
    hide OrphanWorld, WorldOk, SystemOk, Exact, Completes, Reachable, NoDownload, Reach, Files, CollisionFreeStep;
    hide WorldNext;
    var homes, w, l := map[session.userId := home], OrphanWorld(e, id, session, home, d, f, b, fileId),
        Send(id, UploadEnd);
    OrphanOk(e, id, session, home, d, f, b, fileId);
    OrphanNowhere(e, id, session, home, d, f, b, fileId);
    OrphanEnds(e, id, session, home, d, f, b, fileId);
    EndedNowhere(e, homes, w, l, session, NameKey(session.userId, [d, f]));
  }

  lemma OrphanOk(e: Env, id: int, session: Session, home: F.Path, d: string, f: string, b: Bytes, fileId: FileId)
    requires (forall c | c in home :: F.FileName(c)) && NormalForm([d, f]) && |e.hash(b)| == 32 && |b| < TWO_TO_THE_64
    ensures var homes, w := map[session.userId := home], OrphanWorld(e, id, session, home, d, f, b, fileId);
            && WorldOk(homes, w) && SystemOk(e, w.system) && Exact(w.system.store)
            && Reachable(homes, w.fs, w.system.store)
            && Files(w.system.store) == map[]
  {
    hide SystemOk, Exact, Files, PlainTrees, TreeOf, NormalPath, PathText, InAHome, Reach;
    var homes, w := map[session.userId := home], OrphanWorld(e, id, session, home, d, f, b, fileId);
    OrphanStore(e, id, session, home, d, f, b, fileId);
    TreeIsPlain(session.userId, home, home);
    HomeHolds(homes, session.userId, home + [d, f]);
    NameKeyIs(session, [d, f]);
  }

  lemma OrphanStore(e: Env, id: int, session: Session, home: F.Path, d: string, f: string, b: Bytes, fileId: FileId)
    requires |e.hash(b)| == 32 && |b| < TWO_TO_THE_64
    ensures var y := OrphanWorld(e, id, session, home, d, f, b, fileId).system;
            && SystemOk(e, y) && Exact(y.store) && Files(y.store) == map[] && forall k :: FileMd5(y.store, k) == ""
  {
    hide TreeOf, PathText;
    var y := OrphanWorld(e, id, session, home, d, f, b, fileId).system;
    assert forall k :: KeyOk(y.store, k);
  }

  lemma OrphanNowhere(e: Env, id: int, session: Session, home: F.Path, d: string, f: string, b: Bytes, fileId: FileId)
    requires (forall c | c in home :: F.FileName(c)) && NormalForm([d, f]) && |b| < TWO_TO_THE_64
    ensures var w := OrphanWorld(e, id, session, home, d, f, b, fileId);
            !Reach(map[session.userId := home], w.fs, NameKey(session.userId, [d, f]))
  {
    hide NamesOf, PlainTrees, TreeOf;
    var homes, k := map[session.userId := home], NameKey(session.userId, [d, f]);
    TreeIsPlain(session.userId, home, home);
    NameKeyIs(session, [d, f]);
    ReachIs(homes, TreeOf(home), k);
    assert F.Parent([d, f]) == [d] && |home + [d]| > |home|;
    InTreeOf(home, home + [d]);
    hide Reach;
  }

  lemma OrphanEnds(e: Env, id: int, session: Session, home: F.Path, d: string, f: string, b: Bytes, fileId: FileId)
    requires |b| < TWO_TO_THE_64
    ensures var w, l := OrphanWorld(e, id, session, home, d, f, b, fileId), Send(id, UploadEnd);
            && Completes(e, w.system, l) && OpOf(w.system, l) == Some(DoEnd) && CollisionFreeStep(e, w.system, l)
            && AnsweredStep(map[session.userId := home], w, l)
            && l.id in w.system.conns && w.system.conns[l.id].session == Some(session)
            && EndKey(w.system.conns[l.id], session) == NameKey(session.userId, [d, f])
            && PartBytes(w.system.store.disk, w.system.conns[l.id].upload.part) == b
  {
    hide FinishUpload, TreeOf, PathText, KeyOf;
  }

  // ---------------------------------------------------------------- links

  /** With a link under a user's root a file can lose its way by an rm that no guard above forbids: what is stored at
      l/f, where l is a link to d, cannot be reached once the empty directory d is removed. The server makes no links,
      and no premise about links is needed as long as nobody else makes them. */
  lemma LinkedDirectoryRemoved(home: F.Path, d: string, l: string, f: string)
    requires (forall c | c in home :: F.FileName(c)) && NormalForm([d, f]) && Clean(l) && l != d
    ensures var fs := TreeOf(home + [d])[home + [l] := F.Link(F.Target(false, [d]))];
            var gs := D.Without(fs, home + [d]);
            && F.WellFormed(fs) && F.WellFormed(gs)
            && R.Resolved(fs, home, [l, f], false) == Ok(home + [d, f])
            && R.Resolved(gs, home, [l, f], false) == Err(NotFound)
            && !([d] <= [l, f])
  {
    hide TreeOf;
    CleanNames(d, f);
    var fs := TreeOf(home + [d])[home + [l] := F.Link(F.Target(false, [d]))];
    var gs := D.Without(fs, home + [d]);
    assert F.FileName(l);
    LinkedTree(home, d, l);
    assert F.WellFormed(gs) by { D.WithoutIsWellFormed(fs, home + [d]); }
    hide F.WellFormed, D.Without;
    LinkLeads(fs, home, d, l);
    LinkLeadsNowhere(gs, home, d, l);
    TwoSteps(fs, home, l, f);
    TwoSteps(gs, home, l, f);
    assert home + [d] + [f] == home + [d, f];
  }

  lemma LinkedTree(home: F.Path, d: string, l: string)
    requires (forall c | c in home + [d] :: F.FileName(c)) && F.FileName(l) && l != d
    ensures var fs := TreeOf(home + [d])[home + [l] := F.Link(F.Target(false, [d]))];
            var gs := D.Without(fs, home + [d]);
            && F.WellFormed(fs)
            && F.Canonical(fs, home) && fs[home] == F.Directory && F.Canonical(fs, home + [d])
            && F.Canonical(gs, home) && gs[home] == F.Directory && home + [d] !in gs
            && home + [l] in fs && home + [l] in gs && fs[home + [l]] == gs[home + [l]] == F.Link(F.Target(false, [d]))
            && (forall f :: home + [d] + [f] !in fs)
  {
    hide TreeOf, F.WellFormed, D.Without;
    LinkAdded(home, d, l);
    var fs := TreeOf(home + [d])[home + [l] := F.Link(F.Target(false, [d]))];
    LinkStays(fs, home, d, l);
  }

  lemma LinkStays(fs: F.FileSystem, home: F.Path, d: string, l: string)
    requires home in fs && home + [l] in fs && l != d
    ensures var gs := D.Without(fs, home + [d]);
            home in gs && gs[home] == fs[home] && home + [d] !in gs && home + [l] in gs
                && gs[home + [l]] == fs[home + [l]]
  {
    assert (home + [d])[|home|] == d && (home + [l])[|home|] == l;
  }

  lemma LinkAdded(home: F.Path, d: string, l: string)
    requires (forall c | c in home + [d] :: F.FileName(c)) && F.FileName(l) && l != d
    ensures var fs := TreeOf(home + [d])[home + [l] := F.Link(F.Target(false, [d]))];
            && F.WellFormed(fs)
            && home in fs && fs[home] == F.Directory && home + [d] in fs && fs[home + [d]] == F.Directory
            && home + [l] in fs && fs[home + [l]] == F.Link(F.Target(false, [d]))
            && (forall f :: home + [d] + [f] !in fs)
  {
    hide TreeOf, F.WellFormed;
    var t := TreeOf(home + [d]);
    TreeIsWellFormed(home + [d]);
    InTreeOf(home + [d], home);
    InTreeOf(home + [d], home + [d]);
    InTreeOf(home + [d], home + [l]);
    OnlyDirectoriesThere(home + [d], home);
    OnlyDirectoriesThere(home + [d], home + [d]);
    LastNames(home, d, l);
    EntryAdded(t, home + [l], F.Link(F.Target(false, [d])));
    forall f ensures home + [d] + [f] !in t && home + [d] + [f] != home + [l] {
      TooDeep(home, d, l, f);
    }
  }

  lemma LastNames(home: F.Path, d: string, l: string)
    requires l != d
    ensures home + [l] != home + [d] && !(home + [l] <= home + [d]) && home != home + [l] && home + [l] != []
    ensures F.Parent(home + [l]) == home && (home + [l])[|home + [l]| - 1] == l && home <= home + [d]
  {
    assert (home + [d])[|home|] == d && (home + [l])[|home|] == l;
  }

  lemma TooDeep(home: F.Path, d: string, l: string, f: string)
    ensures home + [d] + [f] !in TreeOf(home + [d]) && home + [d] + [f] != home + [l]
  {
    InTreeOf(home + [d], home + [d] + [f]);
    assert |home + [d] + [f]| > |home + [l]|;
  }

  lemma TwoSteps(fs: F.FileSystem, home: F.Path, l: string, f: string)
    ensures var s := R.StepTo(fs, home, home, l);
            && (s.Ok? && s.value + [f] !in fs ==> R.Resolved(fs, home, [l, f], false) == Ok(s.value + [f]))
            && (s.Err? ==> R.Resolved(fs, home, [l, f], false) == s)
  {
    hide R.StepTo;
    assert [l, f][..1] == [l] && [l][..0] == [];
    R.NothingToFollow(fs, home);
  }

  lemma LinkLeads(fs: F.FileSystem, home: F.Path, d: string, l: string)
    requires F.WellFormed(fs) && F.Canonical(fs, home) && fs[home] == F.Directory && F.Canonical(fs, home + [d])
    requires F.FileName(l) && F.FileName(d) && home + [l] in fs && fs[home + [l]] == F.Link(F.Target(false, [d]))
    ensures R.StepTo(fs, home, home, l) == Ok(home + [d])
  {
    assert F.Walk(fs, home, [d], 0) == Some(home + [d]) by { F.RealStep(fs, home, d); }
    assert [l][1..] == [] && [d] + [] == [d];
    assert F.Walk(fs, home, [l], 1) == Some(home + [d]);
    assert F.Resolves(fs, home, [l], home + [d]);
    R.RealOfLink(fs, home, l, home + [d]);
    F.ResolvesUnique(fs, [], home + [l], home + [d], F.RealPath(fs, [], home + [l]).value);
  }

  lemma LinkLeadsNowhere(fs: F.FileSystem, home: F.Path, d: string, l: string)
    requires F.WellFormed(fs) && F.Canonical(fs, home) && home + [d] !in fs
    requires F.FileName(l) && F.FileName(d) && home + [l] in fs && fs[home + [l]] == F.Link(F.Target(false, [d]))
    ensures R.StepTo(fs, home, home, l) == Err(NotFound)
  {
    forall r ensures !F.Resolves(fs, [], home + [l], r) {
      R.RealOfLink(fs, home, l, r);
      forall fuel: nat ensures F.Walk(fs, home, [l], fuel).None? {
        assert [l][1..] == [] && [d] + [] == [d];
      }
    }
  }
}
