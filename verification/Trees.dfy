/** The users' physical directories beside the index: what PathGuard, lstat, mkdir and rename answer there, what
    each request does to them, and exactly which requests keep every file's path usable (src/path_guard.cpp,
    src/file_manager.cpp, src/transfer.cpp). */
module Trees {
  import opened Basics
  import opened Disk
  import opened Store
  import opened Transfer
  import opened Handlers
  import opened DiskSafety
  import opened Runs
  import opened Paths
  import opened PathTexts
  import F = FileSystems
  import D = FileTrees
  import R = Resolution
  import Like
  import PlainMap
  import Sweeping
  import Text

  /** The canonical root of each user. */
  type Homes = map<int, F.Path>

  /** The server together with the file system its users' roots are in; `dests` are the physical paths that
      uploads remember from their begin. */
  datatype World = World(system: System, fs: F.FileSystem, dests: map<int, F.Path>)

  // ---------------------------------------------------------------- what the file system answers

  /** The names of a logical path. */
  function NamesOf(k: Key): seq<string> {
    if k.path == "" then [] else Components(k.path[1..])
  }

  /** resolveUserPath for the path of a key. */
  ghost function Place(homes: Homes, fs: F.FileSystem, k: Key, mustExist: bool): Result<F.Path> {
    if k.user !in homes then Err(NotFound) else R.Resolved(fs, homes[k.user], NamesOf(k), mustExist)
  }

  /** For a path that is looked for first and may then be missing, as rename and download_begin do it. */
  ghost function Existing(homes: Homes, fs: F.FileSystem, k: Key): Result<F.Path> {
    if Place(homes, fs, k, true) == Err(NotFound) then Place(homes, fs, k, false) else Place(homes, fs, k, true)
  }

  /** makeDir */
  function MadeAt(fs: F.FileSystem, p: F.Path): Result<()> {
    if p in fs then Err(Conflict)
    else if p != [] && F.Parent(p) in fs && fs[F.Parent(p)] == F.Directory then Ok(())
    else Err(Internal)
  }

  /** lstat */
  function NodeAt(fs: F.FileSystem, p: F.Path): Node {
    if p !in fs then Missing else if fs[p] == F.Directory then Directory else OtherNode
  }

  /** FileManager::renamePath: the destination must be missing in a directory that is not inside the source. */
  function MoveRefusal(fs: F.FileSystem, p: F.Path, q: F.Path): Option<ErrorCode> {
    if q in fs then Some(Conflict)
    else if p !in fs || p <= q || q == [] || F.Parent(q) !in fs || fs[F.Parent(q)] != F.Directory then Some(Internal)
    else None
  }

  /** The request's physical parameters are what this file system answers. */
  ghost predicate Answered(homes: Homes, fs: F.FileSystem, session: Session, r: Request) {
    match r
    case Mkdir(path, phys, made) =>
      KeyOf(session, path).Ok? ==>
        var p := Place(homes, fs, KeyOf(session, path).value, false);
        phys == R.AsText(p) && (p.Ok? ==> made == MadeAt(fs, p.value))
    case Rm(path, phys, node) =>
      KeyOf(session, path).Ok? ==>
        var p := Place(homes, fs, KeyOf(session, path).value, false);
        phys == R.AsText(p) && (p.Ok? ==> node == NodeAt(fs, p.value))
    case Rename(path, to, phys, moved) =>
      KeyOf(session, path).Ok? && KeyOf(session, to).Ok? ==>
        var p := Existing(homes, fs, KeyOf(session, path).value);
        var q := Place(homes, fs, KeyOf(session, to).value, false);
        && phys == (if p.Err? then Err(p.code) else R.AsText(q))
        && (p.Ok? && q.Ok? ==>
              if MoveRefusal(fs, p.value, q.value).Some? then moved == Err(MoveRefusal(fs, p.value, q.value).value)
              else moved.Ok?)
    case Instant(path, phys, destExists, _, _) =>
      KeyOf(session, path).Ok? ==>
        var p := Place(homes, fs, KeyOf(session, path).value, false);
        phys == R.AsText(p) && (p.Ok? ==> destExists == (p.value in fs))
    case UploadBegin(path, phys, _, _, _) =>
      KeyOf(session, path).Ok? ==> phys == R.AsText(Place(homes, fs, KeyOf(session, path).value, false))
    case DownloadBegin(path, phys, _) =>
      KeyOf(session, path).Ok? ==> phys == R.AsText(Existing(homes, fs, KeyOf(session, path).value))
    case _ => true
  }

  ghost predicate AnsweredStep(homes: Homes, w: World, l: Label) {
    l.Send? && l.id in w.system.conns ==>
      && (l.request.Login? ==> l.request.session.userId in homes)
      && (w.system.conns[l.id].session.Some? ==> Answered(homes, w.fs, w.system.conns[l.id].session.value, l.request))
  }

  // ---------------------------------------------------------------- what requests do to it

  /** unlink(2), which fails on a directory. */
  function Unlinked(fs: F.FileSystem, p: F.Path): F.FileSystem {
    if p in fs && fs[p] != F.Directory then fs - {p} else fs
  }

  /** rename(2) to a path that is missing: everything at or below `p` is then at or below `q`. */
  function Moved(fs: F.FileSystem, p: F.Path, q: F.Path): F.FileSystem {
    map r | r in (set x | x in fs :: if p <= x then q + x[|p|..] else x) ::
      if q <= r && p + r[|q|..] in fs then fs[p + r[|q|..]] else if r in fs then fs[r] else F.Special
  }

  function EndKey(c: Conn, session: Session): Key {
    Key(session.userId, c.upload.path)
  }

  /** The physical side of a request that was done; `dest` is where its upload was to go. */
  ghost function Effect(homes: Homes, fs: F.FileSystem, s: Store, c: Conn, session: Session, op: Op,
                        dest: Option<F.Path>): F.FileSystem
  {
    match op
    case DoMkdir(k, _, _) =>
      var p := Place(homes, fs, k, false);
      if p.Err? then fs else fs[p.value := F.Directory]
    case DoRm(k, _, node) =>
      var p := Place(homes, fs, k, false);
      if p.Err? then fs
      else if !IsFile(s, k) && node == Directory then D.Without(fs, p.value)
      else Unlinked(fs, p.value)
    case DoRename(from, to, _, _) =>
      var p, q := Existing(homes, fs, from), Place(homes, fs, to, false);
      if IsFile(s, from) || p.Err? || q.Err? then fs else Moved(fs, p.value, q.value)
    case DoInstant(k, _, _, _, _) =>
      var p := Place(homes, fs, k, false);
      if IsFile(s, k) || p.Err? then fs else Unlinked(fs, p.value)
    case DoEnd =>
      if IsFile(s, EndKey(c, session)) || dest.None? then fs else Unlinked(fs, dest.value)
    case _ => fs
  }

  ghost function TreeAfter(e: Env, homes: Homes, w: World, l: Label): F.FileSystem {
    if !Completes(e, w.system, l) then w.fs
    else
      var c := w.system.conns[l.id];
      Effect(homes, w.fs, w.system.store, c, c.session.value, OpOf(w.system, l).value,
             if l.id in w.dests then Some(w.dests[l.id]) else None)
  }

  ghost function DestsAfter(homes: Homes, w: World, l: Label): map<int, F.Path> {
    if OpOf(w.system, l).Some? && OpOf(w.system, l).value.DoBegin? then
      var p := Place(homes, w.fs, OpOf(w.system, l).value.key, false);
      if p.Ok? then w.dests[l.id := p.value] else w.dests
    else w.dests
  }

  ghost function WorldNext(e: Env, homes: Homes, w: World, l: Label): World {
    World(Next(e, w.system, l), TreeAfter(e, homes, w, l), DestsAfter(homes, w, l))
  }

  ghost function WorldRun(e: Env, homes: Homes, w: World, ls: seq<Label>): World {
    if ls == [] then w else WorldNext(e, homes, WorldRun(e, homes, w, ls[..|ls| - 1]), ls[|ls| - 1])
  }

  lemma {:induction false} WorldRunIsRun(e: Env, homes: Homes, w: World, ls: seq<Label>)
    ensures WorldRun(e, homes, w, ls).system == Run(e, w.system, ls)
  {
    hide Next, TreeAfter, DestsAfter;
    if ls != [] {
      WorldRunIsRun(e, homes, w, ls[..|ls| - 1]);
    }
  }

  // ---------------------------------------------------------------- trees of directories

  ghost predicate OnlyDirectories(fs: F.FileSystem, root: F.Path) {
    forall p | p in fs && root <= p :: fs[p] == F.Directory
  }

  /** Files are kept as objects, so the server puts nothing but directories under the users' roots. */
  ghost predicate PlainTrees(homes: Homes, fs: F.FileSystem) {
    && F.WellFormed(fs)
    && (forall u, v | u in homes && v in homes && u != v :: !(homes[u] <= homes[v]))
    && (forall u | u in homes :: homes[u] in fs && OnlyDirectories(fs, homes[u]))
  }

  ghost predicate InAHome(homes: Homes, p: F.Path) {
    exists u :: u in homes && homes[u] <= p
  }

  /** What every reachable world is. */
  ghost predicate WorldOk(homes: Homes, w: World) {
    && PlainTrees(homes, w.fs)
    && (forall i | i in w.dests :: InAHome(homes, w.dests[i]))
    && (forall i | i in w.system.conns && w.system.conns[i].session.Some? ::
        w.system.conns[i].session.value.userId in homes)
    && PathsNormal(w.system)
  }

  /** The directory a key's entry would be in. */
  function DirOf(homes: Homes, k: Key): F.Path
    requires k.user in homes
  {
    homes[k.user] + F.Parent(NamesOf(k))
  }

  lemma {:induction false} PlainFollow(fs: F.FileSystem, root: F.Path, names: seq<string>)
    requires F.WellFormed(fs) && root in fs && OnlyDirectories(fs, root)
    ensures R.Follow(fs, root, names) == if root + names in fs then Ok(root + names) else Err(NotFound)
  {
    hide F.WellFormed, OnlyDirectories, R.StepTo, R.Follow;
    if names == [] {
      R.NothingToFollow(fs, root);
      assert root + names == root;
    } else {
      var init, name := names[..|names| - 1], names[|names| - 1];
      PlainFollow(fs, root, init);
      OneMoreName(fs, root, names);
      assert root + names == root + init + [name];
      PlainStep(fs, root, root + init, name);
    }
  }

  lemma OneMoreName(fs: F.FileSystem, root: F.Path, names: seq<string>)
    requires names != []
    ensures var before := R.Follow(fs, root, names[..|names| - 1]);
            R.Follow(fs, root, names) ==
              if before.Err? then before else R.StepTo(fs, root, before.value, names[|names| - 1])
  {
    hide R.StepTo;
  }

  lemma PlainStep(fs: F.FileSystem, root: F.Path, cur: F.Path, name: string)
    requires F.WellFormed(fs) && OnlyDirectories(fs, root) && root <= cur
    ensures R.StepTo(fs, root, cur, name) == if cur + [name] in fs then Ok(cur + [name]) else Err(NotFound)
    ensures cur + [name] in fs ==> cur in fs
  {
    assert F.Parent(cur + [name]) == cur && root <= cur + [name];
  }

  /** In a tree of directories a path resolves exactly when its directory is there. */
  lemma PlainPlace(homes: Homes, fs: F.FileSystem, k: Key)
    requires PlainTrees(homes, fs) && k.user in homes
    ensures var p := homes[k.user] + NamesOf(k);
            && Place(homes, fs, k, false) == (if DirOf(homes, k) in fs then Ok(p) else Err(NotFound))
            && Place(homes, fs, k, true) == (if p in fs then Ok(p) else Err(NotFound))
            && Existing(homes, fs, k) == Place(homes, fs, k, false)
  {
    hide NamesOf;
    var home, names := homes[k.user], NamesOf(k);
    PlainResolved(fs, home, names);
  }

  lemma PlainResolved(fs: F.FileSystem, home: F.Path, names: seq<string>)
    requires F.WellFormed(fs) && home in fs && OnlyDirectories(fs, home)
    ensures R.Resolved(fs, home, names, false) ==
              if home + F.Parent(names) in fs then Ok(home + names) else Err(NotFound)
    ensures R.Resolved(fs, home, names, true) == (if home + names in fs then Ok(home + names) else Err(NotFound))
    ensures home + names in fs ==> home + F.Parent(names) in fs
  {
    hide OnlyDirectories, R.Follow, F.WellFormed;
    PlainFollow(fs, home, names);
    PlainFollow(fs, home, F.Parent(names));
    if names == [] {
      assert home + names == home;
    } else {
      assert F.Parent(home + names) == home + F.Parent(names);
      assert home + names == home + F.Parent(names) + [names[|names| - 1]];
      if home + names in fs {
        F.ParentIsCanonical(fs, home + names);
      }
    }
  }

  // ---------------------------------------------------------------- effects on trees of directories

  lemma PrefixOfPrefix(a: F.Path, b: F.Path, c: F.Path)
    requires a <= c && b <= c
    ensures a <= b || b <= a
  {
    if |a| <= |b| {
      assert a == c[..|a|] == b[..|a|];
    } else {
      assert b == c[..|b|] == a[..|b|];
    }
  }

  /** A place below a user's root is above or below no other user's root. */
  lemma OutsideOthers(homes: Homes, fs: F.FileSystem, u: int, p: F.Path, v: int)
    requires PlainTrees(homes, fs) && u in homes && v in homes && homes[u] < p
    ensures !(p <= homes[v]) && (u != v ==> !(homes[v] <= p))
  {
    if homes[v] <= p {
      PrefixOfPrefix(homes[u], homes[v], p);
    }
  }

  /** A new entry in a directory. */
  lemma EntryAdded(fs: F.FileSystem, p: F.Path, entry: F.Entry)
    requires F.WellFormed(fs) && p !in fs && p != []
    requires F.Parent(p) in fs && fs[F.Parent(p)] == F.Directory && F.FileName(p[|p| - 1])
    ensures F.WellFormed(fs[p := entry])
  {
    hide F.WellFormed, F.FileName;
    var r := fs[p := entry];
    RootThere(fs);
    forall x | x in r && x != [] ensures Placed(r, x) {
      if x != p {
        ParentThere(fs, x);
      }
    }
    AllPlaced(r);
  }

  /** The entry lies in a directory under a possible name. */
  predicate Placed(fs: F.FileSystem, x: F.Path) {
    x != [] && F.Parent(x) in fs && fs[F.Parent(x)] == F.Directory && F.FileName(x[|x| - 1])
  }

  lemma AllPlaced(fs: F.FileSystem)
    requires [] in fs && fs[[]] == F.Directory && forall x | x in fs && x != [] :: Placed(fs, x)
    ensures F.WellFormed(fs)
  {
    hide F.FileName;
  }

  lemma RootThere(fs: F.FileSystem)
    requires F.WellFormed(fs)
    ensures [] in fs && fs[[]] == F.Directory
  {
    hide F.FileName;
  }

  lemma ParentThere(fs: F.FileSystem, x: F.Path)
    requires F.WellFormed(fs) && x in fs && x != []
    ensures F.Parent(x) in fs && fs[F.Parent(x)] == F.Directory && F.FileName(x[|x| - 1])
  {
  }

  lemma MkdirKeepsPlain(homes: Homes, fs: F.FileSystem, p: F.Path)
    requires PlainTrees(homes, fs) && MadeAt(fs, p).Ok? && F.FileName(p[|p| - 1])
    ensures PlainTrees(homes, fs[p := F.Directory])
  {
    EntryAdded(fs, p, F.Directory);
    hide F.WellFormed;
  }

  lemma WithoutKeepsPlain(homes: Homes, fs: F.FileSystem, u: int, p: F.Path)
    requires PlainTrees(homes, fs) && u in homes && homes[u] < p
    ensures PlainTrees(homes, D.Without(fs, p))
  {
    D.WithoutIsWellFormed(fs, p);
    forall v | v in homes ensures homes[v] in D.Without(fs, p) {
      OutsideOthers(homes, fs, u, p, v);
    }
  }

  lemma UnlinkIsNothing(homes: Homes, fs: F.FileSystem, p: F.Path)
    requires PlainTrees(homes, fs) && InAHome(homes, p)
    ensures Unlinked(fs, p) == fs
  {
  }

  lemma NothingBelow(fs: F.FileSystem, q: F.Path, x: F.Path)
    requires F.WellFormed(fs) && q !in fs && x in fs
    ensures !(q <= x)
  {
    if q <= x {
      assert x[..|q|] == q;
      D.PrefixIsThere(fs, x, |q|);
    }
  }

  lemma MovedKeys(fs: F.FileSystem, p: F.Path, q: F.Path, x: F.Path)
    ensures x in Moved(fs, p, q) <==> (x in fs && !(p <= x)) || (q <= x && p + x[|q|..] in fs)
  {
    if q <= x && p + x[|q|..] in fs {
      var y := p + x[|q|..];
      assert y[|p|..] == x[|q|..];
      assert p <= y && q + y[|p|..] == x;
    }
    if x in Moved(fs, p, q) && !(x in fs && !(p <= x)) {
      var y :| y in fs && x == (if p <= y then q + y[|p|..] else y);
      assert p <= y && x[|q|..] == y[|p|..];
      assert p + x[|q|..] == y;
    }
  }

  /** What is where after a move. */
  lemma MovedHas(fs: F.FileSystem, p: F.Path, q: F.Path, x: F.Path)
    requires F.WellFormed(fs) && q !in fs
    ensures x in Moved(fs, p, q) <==> (x in fs && !(p <= x)) || (q <= x && p + x[|q|..] in fs)
    ensures x in fs && !(p <= x) ==> Moved(fs, p, q)[x] == fs[x]
    ensures q <= x && p + x[|q|..] in fs ==> x in Moved(fs, p, q) && Moved(fs, p, q)[x] == fs[p + x[|q|..]]
    ensures x in fs ==> !(q <= x)
  {
    MovedKeys(fs, p, q, x);
    if x in fs {
      NothingBelow(fs, q, x);
    }
    hide F.WellFormed;
  }

  /** Whatever is somewhere after a move is in a directory. */
  lemma MovedParent(fs: F.FileSystem, p: F.Path, q: F.Path, x: F.Path)
    requires F.WellFormed(fs) && MoveRefusal(fs, p, q).None? && F.FileName(q[|q| - 1]) && p != []
    requires x in Moved(fs, p, q) && x != []
    ensures F.Parent(x) in Moved(fs, p, q) && Moved(fs, p, q)[F.Parent(x)] == F.Directory && F.FileName(x[|x| - 1])
  {
    hide Moved;
    MovedHas(fs, p, q, x);
    MovedHas(fs, p, q, F.Parent(x));
    if x in fs && !(p <= x) {
      NotBelow(p, x);
    } else if x == q {
      NotBelow(p, q);
    } else {
      BelowMoved(p, q, x);
    }
  }

  lemma NotBelow(p: F.Path, x: F.Path)
    requires !(p <= x)
    ensures !(p <= F.Parent(x))
  {
  }

  lemma BelowMoved(p: F.Path, q: F.Path, x: F.Path)
    requires q <= x && x != q
    ensures var y := p + x[|q|..];
            y != [] && q <= F.Parent(x) && F.Parent(y) == p + F.Parent(x)[|q|..] && y[|y| - 1] == x[|x| - 1]
  {
  }

  lemma MovedIsWellFormed(fs: F.FileSystem, p: F.Path, q: F.Path)
    requires F.WellFormed(fs) && MoveRefusal(fs, p, q).None? && F.FileName(q[|q| - 1]) && p != []
    ensures F.WellFormed(Moved(fs, p, q))
  {
    hide Moved;
    MovedHas(fs, p, q, []);
    forall x | x in Moved(fs, p, q) && x != []
      ensures F.Parent(x) in Moved(fs, p, q) && Moved(fs, p, q)[F.Parent(x)] == F.Directory && F.FileName(x[|x| - 1])
    {
      MovedParent(fs, p, q, x);
    }
  }

  lemma MoveKeepsPlain(homes: Homes, fs: F.FileSystem, u: int, p: F.Path, q: F.Path)
    requires PlainTrees(homes, fs) && u in homes && homes[u] < p && homes[u] < q
    requires MoveRefusal(fs, p, q).None? && F.FileName(q[|q| - 1])
    ensures PlainTrees(homes, Moved(fs, p, q))
  {
    MovedIsWellFormed(fs, p, q);
    hide Moved;
    forall v | v in homes ensures homes[v] in Moved(fs, p, q) && OnlyDirectories(Moved(fs, p, q), homes[v]) {
      MoveKeepsHome(homes, fs, u, p, q, v);
    }
    hide F.WellFormed, OnlyDirectories;
  }

  lemma MoveKeepsHome(homes: Homes, fs: F.FileSystem, u: int, p: F.Path, q: F.Path, v: int)
    requires PlainTrees(homes, fs) && u in homes && homes[u] < p && homes[u] < q && v in homes
    requires MoveRefusal(fs, p, q).None?
    ensures homes[v] in Moved(fs, p, q) && OnlyDirectories(Moved(fs, p, q), homes[v])
  {
    hide Moved, F.WellFormed;
    OutsideOthers(homes, fs, u, p, v);
    MovedHas(fs, p, q, homes[v]);
    forall x | x in Moved(fs, p, q) && homes[v] <= x ensures Moved(fs, p, q)[x] == F.Directory {
      MovedHas(fs, p, q, x);
      if !(x in fs && !(p <= x)) {
        assert homes[u] <= p + x[|q|..];
      }
    }
  }

  // ---------------------------------------------------------------- requests with their keys

  predicate GoodKey(session: Session, k: Key) {
    k.user == session.userId && NormalPath(k.path)
  }

  predicate GoodOp(session: Session, op: Op) {
    && (op.DoMkdir? || op.DoRm? || op.DoRename? || op.DoInstant? || op.DoBegin? || op.DoOpen? ==>
          GoodKey(session, op.key))
    && (op.DoRename? ==> GoodKey(session, op.to))
  }

  /** The answers, for an operation that got its keys. */
  ghost predicate AnsweredOp(homes: Homes, fs: F.FileSystem, op: Op) {
    match op
    case DoMkdir(k, phys, made) =>
      phys.Ok? ==> Reach(homes, fs, k) && made == MadeAt(fs, Place(homes, fs, k, false).value)
    case DoRm(k, phys, node) =>
      phys.Ok? ==> Reach(homes, fs, k) && node == NodeAt(fs, Place(homes, fs, k, false).value)
    case DoRename(k, to, phys, moved) =>
      phys.Ok? ==>
        && Existing(homes, fs, k).Ok? && Reach(homes, fs, to)
        && (moved.Ok? <==> MoveRefusal(fs, Existing(homes, fs, k).value, Place(homes, fs, to, false).value).None?)
    case DoInstant(k, phys, _, _, _) => phys.Ok? ==> Reach(homes, fs, k)
    case DoBegin(k, part, _, _, _) => part.Ok? ==> Reach(homes, fs, k)
    case _ => true
  }

  lemma KeyIsGood(session: Session, path: string)
    requires KeyOf(session, path).Ok?
    ensures GoodKey(session, KeyOf(session, path).value)
  {
    KeyIsNormal(session, path);
  }

  lemma ParsedIsGood(homes: Homes, fs: F.FileSystem, session: Session, r: Request)
    requires Answered(homes, fs, session, r) && Parse(session, r).Ok?
    ensures GoodOp(session, Parse(session, r).value) && AnsweredOp(homes, fs, Parse(session, r).value)
  {
    hide KeyOf, GoodKey, Place, Existing, MoveRefusal, NodeAt;
    match r
    case Mkdir(path, _, _) => KeyIsGood(session, path);
    case Rm(path, _, _) => KeyIsGood(session, path);
    case Rename(path, to, _, _) => KeyIsGood(session, path); KeyIsGood(session, to);
    case Instant(path, _, _, _, _) => KeyIsGood(session, path);
    case UploadBegin(path, _, _, _, _) => KeyIsGood(session, path);
    case DownloadBegin(path, _, _) => KeyIsGood(session, path);
    case _ =>
  }

  lemma NormalNames(k: Key)
    requires NormalPath(k.path)
    ensures NormalForm(NamesOf(k)) && k.path == PathText(NamesOf(k))
    ensures forall c | c in NamesOf(k) :: F.FileName(c)
    ensures NamesOf(k) == [] <==> k.path == "/"
  {
    Text.PiecesJoin(k.path[1..], '/');
    assert k.path == "/" + k.path[1..];
    JoinNonEmpty(NamesOf(k));
  }

  /** Where a good key is placed: below its user's root unless it is the root. */
  lemma GoodPlace(homes: Homes, fs: F.FileSystem, session: Session, k: Key)
    requires PlainTrees(homes, fs) && session.userId in homes && GoodKey(session, k) && Reach(homes, fs, k)
    ensures var p := Place(homes, fs, k, false).value;
            && k.user in homes && p == homes[k.user] + NamesOf(k) && homes[k.user] <= p
            && Existing(homes, fs, k) == Ok(p) && DirOf(homes, k) in fs
            && (k.path != "/" ==> homes[k.user] < p && p != [] && F.FileName(p[|p| - 1]))
            && (k.path == "/" ==> p == homes[k.user] && p in fs)
  {
    PlainPlace(homes, fs, k);
    NormalNames(k);
    var names := NamesOf(k);
    if names == [] {
      assert homes[k.user] + names == homes[k.user];
    } else {
      assert names[|names| - 1] in names;
    }
  }

  /** What Done says about a request's physical side. */
  predicate Accepted(s: Store, op: Op) {
    match op
    case DoMkdir(_, phys, made) => phys.Ok? && made.Ok?
    case DoRm(k, phys, _) => phys.Ok? && k.path != "/"
    case DoRename(from, _, phys, moved) => phys.Ok? && (IsFile(s, from) || moved.Ok?)
    case DoInstant(_, phys, _, _, _) => phys.Ok?
    case _ => true
  }

  lemma DoneIsAccepted(e: Env, s: Store, c: Conn, session: Session, op: Op)
    requires Perform(e, s, c, session, op).reply == Done
    ensures Accepted(s, op)
  {
    hide IndexDir, RemovePath, InstantUpload, OnUploadEnd, RenameFile, RenameOther;
  }

  lemma EffectKeepsPlain(homes: Homes, fs: F.FileSystem, s: Store, c: Conn, session: Session, op: Op,
                         dest: Option<F.Path>)
    requires PlainTrees(homes, fs) && session.userId in homes && GoodOp(session, op) && AnsweredOp(homes, fs, op)
    requires (dest.Some? ==> InAHome(homes, dest.value)) && Accepted(s, op)
    ensures PlainTrees(homes, Effect(homes, fs, s, c, session, op, dest))
  {
    hide PlainTrees, GoodKey, Place, Existing, Moved, Unlinked, D.Without, InAHome, IsFile;
    match op
    case DoMkdir(k, _, _) => MkdirTree(homes, fs, session, k);
    case DoRm(k, _, node) => RmTree(homes, fs, session, k, node);
    case DoRename(k, to, _, moved) =>
      if !IsFile(s, k) {
        RenameTree(homes, fs, session, k, to);
      }
    case DoInstant(k, _, _, _, _) => InstantTree(homes, fs, session, k);
    case DoEnd => if dest.Some? { UnlinkIsNothing(homes, fs, dest.value); }
    case _ =>
  }

  lemma HomeHolds(homes: Homes, u: int, p: F.Path)
    requires u in homes && homes[u] <= p
    ensures InAHome(homes, p)
  {
  }

  lemma MkdirTree(homes: Homes, fs: F.FileSystem, session: Session, k: Key)
    requires PlainTrees(homes, fs) && session.userId in homes && GoodKey(session, k) && Reach(homes, fs, k)
    requires MadeAt(fs, Place(homes, fs, k, false).value).Ok?
    ensures PlainTrees(homes, fs[Place(homes, fs, k, false).value := F.Directory])
  {
    GoodPlace(homes, fs, session, k);
    MkdirKeepsPlain(homes, fs, Place(homes, fs, k, false).value);
  }

  lemma RmTree(homes: Homes, fs: F.FileSystem, session: Session, k: Key, node: Node)
    requires PlainTrees(homes, fs) && session.userId in homes && GoodKey(session, k) && Reach(homes, fs, k)
    requires k.path != "/"
    ensures var p := Place(homes, fs, k, false).value;
            PlainTrees(homes, D.Without(fs, p)) && Unlinked(fs, p) == fs
  {
    hide PlainTrees, Place;
    GoodPlace(homes, fs, session, k);
    var p := Place(homes, fs, k, false).value;
    WithoutKeepsPlain(homes, fs, k.user, p);
    HomeHolds(homes, k.user, p);
    UnlinkIsNothing(homes, fs, p);
  }

  lemma InstantTree(homes: Homes, fs: F.FileSystem, session: Session, k: Key)
    requires PlainTrees(homes, fs) && session.userId in homes && GoodKey(session, k) && Reach(homes, fs, k)
    ensures Unlinked(fs, Place(homes, fs, k, false).value) == fs
  {
    hide PlainTrees, Place;
    GoodPlace(homes, fs, session, k);
    HomeHolds(homes, k.user, Place(homes, fs, k, false).value);
    UnlinkIsNothing(homes, fs, Place(homes, fs, k, false).value);
  }

  /** A rename that the file system performs moves something below the user's root to a place below it. */
  lemma RenamePlaces(homes: Homes, fs: F.FileSystem, session: Session, from: Key, to: Key)
    requires PlainTrees(homes, fs) && session.userId in homes && GoodKey(session, from) && GoodKey(session, to)
    requires Existing(homes, fs, from).Ok? && Reach(homes, fs, to)
    requires MoveRefusal(fs, Existing(homes, fs, from).value, Place(homes, fs, to, false).value).None?
    ensures var p, q := Existing(homes, fs, from).value, Place(homes, fs, to, false).value;
            && session.userId in homes && from.user == to.user == session.userId
            && p == homes[from.user] + NamesOf(from) && q == homes[to.user] + NamesOf(to)
            && homes[from.user] < p && homes[to.user] < q && F.FileName(q[|q| - 1])
            && DirOf(homes, to) in fs
  {
    PlainPlace(homes, fs, from);
    GoodPlace(homes, fs, session, from);
    GoodPlace(homes, fs, session, to);
  }

  lemma RenameTree(homes: Homes, fs: F.FileSystem, session: Session, from: Key, to: Key)
    requires PlainTrees(homes, fs) && session.userId in homes && GoodKey(session, from) && GoodKey(session, to)
    requires Existing(homes, fs, from).Ok? && Reach(homes, fs, to)
    requires MoveRefusal(fs, Existing(homes, fs, from).value, Place(homes, fs, to, false).value).None?
    ensures PlainTrees(homes, Moved(fs, Existing(homes, fs, from).value, Place(homes, fs, to, false).value))
  {
    hide PlainTrees, Place, Existing, Moved, MoveRefusal;
    RenamePlaces(homes, fs, session, from, to);
    MoveKeepsPlain(homes, fs, from.user, Existing(homes, fs, from).value, Place(homes, fs, to, false).value);
  }

  /** Whatever requests come, guarded or not, the roots hold nothing but directories. */
  lemma StepKeepsWorld(e: Env, homes: Homes, w: World, l: Label)
    requires WorldOk(homes, w) && AnsweredStep(homes, w, l)
    ensures WorldOk(homes, WorldNext(e, homes, w, l))
  {
    hide PathsNormal, PlainTrees, InAHome, Perform, Parse, Effect, Answered, Place, Handle;
    StepKeepsNormal(e, w.system, l);
    SessionsAfter(e, w.system, l);
    if OpOf(w.system, l).Some? {
      var c, op := w.system.conns[l.id], OpOf(w.system, l).value;
      ParsedIsGood(homes, w.fs, c.session.value, l.request);
      if Completes(e, w.system, l) {
        DoneIsAccepted(e, w.system.store, c, c.session.value, op);
        EffectKeepsPlain(homes, w.fs, w.system.store, c, c.session.value, op,
                         if l.id in w.dests then Some(w.dests[l.id]) else None);
      }
      if op.DoBegin? && Place(homes, w.fs, op.key, false).Ok? {
        BeginInside(homes, w.fs, c.session.value, op.key);
      }
    }
  }

  lemma BeginInside(homes: Homes, fs: F.FileSystem, session: Session, k: Key)
    requires PlainTrees(homes, fs) && session.userId in homes && GoodKey(session, k) && Reach(homes, fs, k)
    ensures InAHome(homes, Place(homes, fs, k, false).value)
  {
    GoodPlace(homes, fs, session, k);
  }

  /** Only a login brings a session. */
  lemma SessionsAfter(e: Env, y: System, l: Label)
    ensures var z := Next(e, y, l);
            forall i | i in z.conns && z.conns[i].session.Some? ::
              (i in y.conns && z.conns[i].session == y.conns[i].session) ||
              (l.Send? && l.id == i && i in y.conns && l.request.Login?
                  && z.conns[i].session == Some(l.request.session))
  {
    hide RemovePath, RenamePath, InstantUpload, FinishUpload, QueryInstant, FinishRefusal, AfterRefusedFinish;
    hide ChunkRefusal;
    hide BeginUpload, BeginRefusal, WriteChunk, BeginDownload, KeyOf, PartOf, OnDownloadChunk;
  }

  // ---------------------------------------------------------------- files whose path can be used

  /** PathGuard finds the way to the key's entry, so no request about it is refused for its path. */
  ghost predicate Reach(homes: Homes, fs: F.FileSystem, k: Key) {
    Place(homes, fs, k, false).Ok?
  }

  ghost predicate Reachable(homes: Homes, fs: F.FileSystem, s: Store) {
    forall k | FileMd5(s, k) != "" :: Reach(homes, fs, k)
  }

  predicate StrictlyUnder(dir: Key, k: Key) {
    k.user == dir.user && NamesOf(dir) < NamesOf(k)
  }

  /** What is renamed, when it is no file, must have no file under its old path (G6). */
  ghost predicate LeavesNoFile(s: Store, from: Key) {
    forall k | FileMd5(s, k) != "" :: !StrictlyUnder(from, k)
  }

  /** G6 for renames, and for the end of an upload that the directory of its path is still there (G7). */
  ghost predicate KeepsPaths(homes: Homes, fs: F.FileSystem, s: Store, c: Conn, session: Session, op: Op) {
    match op
    case DoRename(from, _, _, _) => IsFile(s, from) || LeavesNoFile(s, from)
    case DoEnd => Reach(homes, fs, EndKey(c, session))
    case _ => true
  }

  ghost predicate ReachGuard(e: Env, homes: Homes, w: World, l: Label) {
    Completes(e, w.system, l) ==>
      var c := w.system.conns[l.id];
      KeepsPaths(homes, w.fs, w.system.store, c, c.session.value, OpOf(w.system, l).value)
  }

  /** The keys that a request that was done may give content. */
  function NewContent(c: Conn, session: Session, op: Op): set<Key> {
    match op
    case DoRename(_, to, _, _) => {to}
    case DoInstant(k, _, _, _, _) => {k}
    case DoEnd => {EndKey(c, session)}
    case _ => {}
  }

  /** What a request that was done does to the set of keys with content. */
  ghost predicate ContentStep(s: Store, t: Store, c: Conn, session: Session, op: Op) {
    && (forall k | FileMd5(t, k) != "" :: FileMd5(s, k) != "" || k in NewContent(c, session, op))
    && (op.DoEnd? ==> c.upload.fd.Some? && FileMd5(t, EndKey(c, session)) == c.upload.md5)
    && (op.DoRm? && !IsFile(s, op.key) && op.node == Directory ==>
          forall k | FileMd5(t, k) != "" :: k !in Selected(s, op.key.user, op.key.path))
    && (op.DoRename? && !IsFile(s, op.key) ==>
          forall k | k != op.key && k != op.to :: FileMd5(t, k) == FileMd5(s, k))
  }

  lemma ContentAfter(e: Env, s: Store, c: Conn, session: Session, op: Op)
    requires Perform(e, s, c, session, op).reply == Done
    ensures ContentStep(s, Perform(e, s, c, session, op).store, c, session, op)
  {
    hide QueryInstant, OnDownloadChunk, BeginDownload, ChunkRefusal, WriteChunk, BeginUpload, FinishUpload, RemovePath;
    hide RenamePath;
    hide InstantUpload, FinishRefusal, AfterRefusedFinish, Selected;
    match op
    case DoRename(from, to, _, moved) => RenameContent(s, from, to, moved);
    case DoInstant(k, _, destExists, claim, overwrite) =>
      InstantContent(e, s, session.token, k, claim, destExists, overwrite);
    case DoRm(k, _, node) => RmContent(s, k, node);
    case DoEnd => EndContent(e, s, c, EndKey(c, session));
    case _ =>
  }

  lemma RmContent(s: Store, k: Key, node: Node)
    ensures var t := RemovePath(s, k, node);
            && (forall l | FileMd5(t, l) != "" :: FileMd5(s, l) != "")
            && (!IsFile(s, k) && node == Directory ==>
                  forall l | FileMd5(t, l) != "" :: l !in Selected(s, k.user, k.path))
  {
    hide Selected, DropRef;
  }

  lemma RenameContent(s: Store, from: Key, to: Key, moved: Result<nat>)
    ensures var t := RenamePath(s, from, to, moved).0;
            && (forall l | FileMd5(t, l) != "" :: FileMd5(s, l) != "" || l == to)
            && forall l | l != from && l != to :: FileMd5(t, l) == FileMd5(s, l)
  {
  }

  lemma InstantContent(e: Env, s: Store, token: Token, k: Key, claim: Claim, destExists: bool, overwrite: bool)
    ensures var t := InstantUpload(e, s, token, k, claim, destExists, overwrite).0;
            forall l | FileMd5(t, l) != "" :: FileMd5(s, l) != "" || l == k
  {
    hide ClaimRefusal, DropRef;
  }

  lemma EndContent(e: Env, s: Store, c: Conn, k: Key)
    ensures var t := FinishUpload(s, k, c.upload);
            && (forall l | FileMd5(t, l) != "" :: FileMd5(s, l) != "" || l == k)
            && FileMd5(t, k) == c.upload.md5
    ensures FinishRefusal(e, s.disk, c.upload).None? ==> c.upload.fd.Some?
  {
    hide PartBytes, PublishFile, DropRef;
  }

  lemma ReachIs(homes: Homes, fs: F.FileSystem, k: Key)
    requires PlainTrees(homes, fs)
    ensures Reach(homes, fs, k) <==> k.user in homes && DirOf(homes, k) in fs
  {
    if k.user in homes {
      PlainPlace(homes, fs, k);
    }
  }

  /** A key's directory is at or below the place of another key exactly when the key is strictly under it. */
  lemma UnderMeans(homes: Homes, fs: F.FileSystem, dir: Key, k: Key)
    requires PlainTrees(homes, fs) && dir.user in homes && k.user in homes && NamesOf(dir) != []
    ensures homes[dir.user] + NamesOf(dir) <= DirOf(homes, k) <==> StrictlyUnder(dir, k)
  {
    hide F.WellFormed, OnlyDirectories;
    var a, b, h := NamesOf(dir), NamesOf(k), homes[dir.user];
    if h + a <= DirOf(homes, k) {
      HomeBelow(h, a, DirOf(homes, k));
      PrefixOfPrefix(h, homes[k.user], DirOf(homes, k));
      assert k.user == dir.user;
      TailBelow(h, a, F.Parent(b));
      ParentBelow(a, b);
    }
    if StrictlyUnder(dir, k) {
      ParentBelow(a, b);
      PrefixUnder(h, a, F.Parent(b));
    }
  }

  lemma HomeBelow(h: F.Path, a: F.Path, x: F.Path)
    requires h + a <= x
    ensures h <= x
  {
    assert x[..|h|] == (h + a)[..|h|] == h;
  }

  lemma TailBelow(h: F.Path, a: F.Path, b: F.Path)
    requires h + a <= h + b
    ensures a <= b
  {
    assert a == (h + a)[|h|..] && (h + b)[|h|..|h + a|] == b[..|a|];
  }

  lemma ParentBelow(a: F.Path, b: F.Path)
    requires a != []
    ensures a <= F.Parent(b) <==> a < b
  {
    if a < b {
      assert a == b[..|a|] == F.Parent(b)[..|a|];
    }
  }

  lemma WithoutReach(homes: Homes, fs: F.FileSystem, dir: Key, k: Key)
    requires PlainTrees(homes, fs) && dir.user in homes && NamesOf(dir) != []
    requires PlainTrees(homes, D.Without(fs, homes[dir.user] + NamesOf(dir)))
    ensures Reach(homes, D.Without(fs, homes[dir.user] + NamesOf(dir)), k) <==>
            Reach(homes, fs, k) && !StrictlyUnder(dir, k)
  {
    ReachIs(homes, fs, k);
    ReachIs(homes, D.Without(fs, homes[dir.user] + NamesOf(dir)), k);
    if k.user in homes {
      UnderMeans(homes, fs, dir, k);
    }
    hide PlainTrees, Reach, StrictlyUnder;
  }

  lemma MovedReach(homes: Homes, fs: F.FileSystem, dir: Key, q: F.Path, k: Key)
    requires PlainTrees(homes, fs) && dir.user in homes && NamesOf(dir) != [] && q !in fs && Reach(homes, fs, k)
    requires PlainTrees(homes, Moved(fs, homes[dir.user] + NamesOf(dir), q))
    ensures Reach(homes, Moved(fs, homes[dir.user] + NamesOf(dir), q), k) <==> !StrictlyUnder(dir, k)
  {
    var p := homes[dir.user] + NamesOf(dir);
    ReachIs(homes, fs, k);
    ReachIs(homes, Moved(fs, p, q), k);
    UnderMeans(homes, fs, dir, k);
    MovedHas(fs, p, q, DirOf(homes, k));
    hide PlainTrees, Reach, StrictlyUnder, Moved;
  }

  /** What rm of a directory leaves in the index is not under it. */
  lemma SelectedUnder(s: Store, dir: Key, k: Key)
    requires NormalPath(dir.path) && NormalPath(k.path) && IsFile(s, k) && StrictlyUnder(dir, k)
    ensures k in Selected(s, dir.user, dir.path)
  {
    NormalNames(dir);
    NormalNames(k);
    var a, b := NamesOf(dir), NamesOf(k);
    Sweeping.NoBackslash(a);
    UnderIsDescendant(a, b);
    Like.PrefixMatches(DirText(a), PathText(b));
  }

  /** A step without effect on the tree keeps every file's path usable iff the new keys' paths are. */
  lemma SameTree(homes: Homes, fs: F.FileSystem, s: Store, t: Store, more: set<Key>)
    requires Reachable(homes, fs, s) && forall k | FileMd5(t, k) != "" :: FileMd5(s, k) != "" || k in more
    ensures (forall k | k in more :: Reach(homes, fs, k)) ==> Reachable(homes, fs, t)
  {
  }

  lemma BiggerTree(homes: Homes, fs: F.FileSystem, p: F.Path, s: Store)
    requires PlainTrees(homes, fs) && PlainTrees(homes, fs[p := F.Directory]) && Reachable(homes, fs, s)
    ensures Reachable(homes, fs[p := F.Directory], s)
  {
    hide PlainTrees;
    forall k | FileMd5(s, k) != "" ensures Reach(homes, fs[p := F.Directory], k) {
      ReachIs(homes, fs, k);
      ReachIs(homes, fs[p := F.Directory], k);
    }
  }

  // ---------------------------------------------------------------- one step, exactly

  ghost predicate RowsNormal(s: Store) {
    forall k | k in s.rows :: NormalPath(k.path)
  }

  lemma RmReaches(homes: Homes, fs: F.FileSystem, session: Session, dir: Key, s: Store, t: Store)
    requires PlainTrees(homes, fs) && session.userId in homes && GoodKey(session, dir) && Reach(homes, fs, dir)
    requires dir.path != "/" && RowsNormal(s) && Reachable(homes, fs, s)
    requires forall k | FileMd5(t, k) != "" :: FileMd5(s, k) != "" && k !in Selected(s, dir.user, dir.path)
    ensures Reachable(homes, D.Without(fs, Place(homes, fs, dir, false).value), t)
  {
    hide PlainTrees, Place, Selected, StrictlyUnder;
    GoodPlace(homes, fs, session, dir);
    RmTree(homes, fs, session, dir, Directory);
    NormalNames(dir);
    forall k | FileMd5(t, k) != "" ensures Reach(homes, D.Without(fs, Place(homes, fs, dir, false).value), k) {
      WithoutReach(homes, fs, dir, k);
      if StrictlyUnder(dir, k) {
        SelectedUnder(s, dir, k);
      }
    }
  }

  lemma MoveReaches(homes: Homes, fs: F.FileSystem, session: Session, from: Key, to: Key, s: Store, t: Store)
    requires PlainTrees(homes, fs) && session.userId in homes && GoodKey(session, from) && GoodKey(session, to)
    requires Existing(homes, fs, from).Ok? && Reach(homes, fs, to) && Reachable(homes, fs, s)
    requires MoveRefusal(fs, Existing(homes, fs, from).value, Place(homes, fs, to, false).value).None?
    requires forall k | k != from && k != to :: FileMd5(t, k) == FileMd5(s, k)
    requires forall k | FileMd5(t, k) != "" :: FileMd5(s, k) != "" || k == to
    ensures Reachable(homes, Moved(fs, Existing(homes, fs, from).value, Place(homes, fs, to, false).value), t) <==>
            LeavesNoFile(s, from)
  {
    hide PlainTrees, Place, Existing, Moved;
    RenamePlaces(homes, fs, session, from, to);
    RenameTree(homes, fs, session, from, to);
    var p, q := Existing(homes, fs, from).value, Place(homes, fs, to, false).value;
    if StrictlyUnder(from, to) {
      assert p <= q by { PrefixUnder(homes[from.user], NamesOf(from), NamesOf(to)); }
    }
    forall k | Reach(homes, fs, k) ensures Reach(homes, Moved(fs, p, q), k) <==> !StrictlyUnder(from, k) {
      MovedReach(homes, fs, from, q, k);
    }
    hide StrictlyUnder;
    if Reachable(homes, Moved(fs, p, q), t) {
      forall k | FileMd5(s, k) != "" ensures !StrictlyUnder(from, k) {
        if StrictlyUnder(from, k) {
          assert k != from by { NotUnderItself(k); }
        }
      }
    }
  }

  lemma NotUnderItself(k: Key)
    ensures !StrictlyUnder(k, k)
  {
  }

  lemma PrefixUnder(home: F.Path, a: seq<string>, b: seq<string>)
    requires a <= b
    ensures home + a <= home + b
  {
    assert b == a + b[|a|..];
    assert home + b == home + a + b[|a|..];
  }

  lemma MkdirCase(homes: Homes, fs: F.FileSystem, session: Session, k: Key, s: Store, t: Store)
    requires PlainTrees(homes, fs) && session.userId in homes && GoodKey(session, k) && Reach(homes, fs, k)
    requires MadeAt(fs, Place(homes, fs, k, false).value).Ok? && Reachable(homes, fs, s)
    requires forall l | FileMd5(t, l) != "" :: FileMd5(s, l) != ""
    ensures Reachable(homes, fs[Place(homes, fs, k, false).value := F.Directory], t)
  {
    MkdirTree(homes, fs, session, k);
    hide PlainTrees, GoodKey, Place, MadeAt, Reachable, FileMd5;
    SameTree(homes, fs, s, t, {});
    BiggerTree(homes, fs, Place(homes, fs, k, false).value, t);
  }

  lemma RmCase(homes: Homes, fs: F.FileSystem, session: Session, k: Key, node: Node, s: Store, t: Store)
    requires PlainTrees(homes, fs) && session.userId in homes && GoodKey(session, k) && Reach(homes, fs, k)
    requires k.path != "/" && RowsNormal(s) && Reachable(homes, fs, s)
    requires forall l | FileMd5(t, l) != "" :: FileMd5(s, l) != ""
    requires !IsFile(s, k) && node == Directory ==> forall l | FileMd5(t, l) != "" :: l !in Selected(s, k.user, k.path)
    ensures var p := Place(homes, fs, k, false).value;
            Reachable(homes, if !IsFile(s, k) && node == Directory then D.Without(fs, p) else Unlinked(fs, p), t)
  {
    hide PlainTrees, GoodKey, Place, Reachable, FileMd5, D.Without, Unlinked, RowsNormal, Selected, IsFile;
    RmTree(homes, fs, session, k, node);
    if !IsFile(s, k) && node == Directory {
      RmReaches(homes, fs, session, k, s, t);
    } else {
      SameTree(homes, fs, s, t, {});
    }
  }

  /** A request that was done leaves every file's path usable exactly under G6 and G7. */
  lemma EffectReaches(homes: Homes, fs: F.FileSystem, s: Store, t: Store, c: Conn, session: Session, op: Op,
                      dest: Option<F.Path>)
    requires PlainTrees(homes, fs) && session.userId in homes && GoodOp(session, op) && AnsweredOp(homes, fs, op)
    requires (dest.Some? ==> InAHome(homes, dest.value)) && Accepted(s, op) && ContentStep(s, t, c, session, op)
    requires RowsNormal(s) && Reachable(homes, fs, s) && (c.upload.fd.Some? ==> c.upload.md5 != "")
    ensures Reachable(homes, Effect(homes, fs, s, c, session, op, dest), t) <==>
            KeepsPaths(homes, fs, s, c, session, op)
  {
    hide PlainTrees, GoodKey, Place, Existing, Moved, Unlinked, D.Without, InAHome, Reachable, LeavesNoFile, RowsNormal;
    hide MoveRefusal, FileMd5, EndKey, NodeAt, MadeAt, IsFile, Selected;
    match op
    case DoMkdir(k, _, _) => MkdirCase(homes, fs, session, k, s, t);
    case DoRm(k, _, node) => RmCase(homes, fs, session, k, node, s, t);
    case DoRename(k, to, _, moved) =>
      if IsFile(s, k) {
        SameTree(homes, fs, s, t, {to});
      } else {
        MoveReaches(homes, fs, session, k, to, s, t);
      }
    case DoInstant(k, _, _, _, _) =>
      InstantTree(homes, fs, session, k);
      SameTree(homes, fs, s, t, {k});
    case DoEnd =>
      if dest.Some? { UnlinkIsNothing(homes, fs, dest.value); }
      SameTree(homes, fs, s, t, {EndKey(c, session)});
      ReachesAt(homes, fs, t, EndKey(c, session));
    case _ => SameTree(homes, fs, s, t, {});
  }

  lemma ReachesAt(homes: Homes, fs: F.FileSystem, s: Store, k: Key)
    requires FileMd5(s, k) != ""
    ensures Reachable(homes, fs, s) ==> Reach(homes, fs, k)
  {
  }

  lemma SameRowsReach(homes: Homes, fs: F.FileSystem, s: Store, t: Store)
    requires t.rows == s.rows
    ensures Reachable(homes, fs, s) <==> Reachable(homes, fs, t)
  {
    assert forall k :: FileMd5(t, k) == FileMd5(s, k);
  }

  lemma UploadNamed(e: Env, y: System, id: int)
    requires SystemOk(e, y) && id in y.conns && y.conns[id].upload.fd.Some?
    ensures y.conns[id].upload.md5 != ""
  {
    assert ConnOk(y.store.disk, y.conns[id]);
  }

  lemma PerformIsNext(e: Env, y: System, l: Label)
    requires OpOf(y, l).Some?
    ensures Next(e, y, l).store ==
            Perform(e, y.store, y.conns[l.id], y.conns[l.id].session.value, OpOf(y, l).value).store
  {
    hide Perform;
  }

  /** One step leaves every file's path usable if and only if it respects G6 and G7. */
  lemma StepReaches(e: Env, homes: Homes, w: World, l: Label)
    requires WorldOk(homes, w) && AnsweredStep(homes, w, l) && SystemOk(e, w.system)
    requires Reachable(homes, w.fs, w.system.store)
    ensures var z := WorldNext(e, homes, w, l);
            Reachable(homes, z.fs, z.system.store) <==> ReachGuard(e, homes, w, l)
  {
    hide PlainTrees, InAHome, Perform, Parse, Effect, Answered, Place, Handle, Reachable, KeepsPaths, SystemOk;
    hide ContentStep, Accepted;
    if Completes(e, w.system, l) {
      var c, op := w.system.conns[l.id], OpOf(w.system, l).value;
      ParsedIsGood(homes, w.fs, c.session.value, l.request);
      if c.upload.fd.Some? {
        UploadNamed(e, w.system, l.id);
      }
      DoneIsAccepted(e, w.system.store, c, c.session.value, op);
      ContentAfter(e, w.system.store, c, c.session.value, op);
      PerformIsNext(e, w.system, l);
      EffectReaches(homes, w.fs, w.system.store, Next(e, w.system, l).store, c, c.session.value, op,
                    if l.id in w.dests then Some(w.dests[l.id]) else None);
    } else {
      PlainMap.UnfinishedRows(e, w.system, l);
      SameRowsReach(homes, w.fs, w.system.store, Next(e, w.system, l).store);
    }
  }

  // ---------------------------------------------------------------- directories that go and move

  lemma DirectoryThere(homes: Homes, fs: F.FileSystem, session: Session, k: Key)
    requires PlainTrees(homes, fs) && session.userId in homes && GoodKey(session, k) && Reach(homes, fs, k)
    ensures var p := Place(homes, fs, k, false).value;
            p in fs ==> NodeAt(fs, p) == Directory && p !in D.Without(fs, p)
  {
    GoodPlace(homes, fs, session, k);
  }

  /** rm of a physical directory that is done removes it, with everything below it, if and only if its row is no
      file row. */
  lemma DirectoryGoes(e: Env, homes: Homes, w: World, l: Label)
    requires WorldOk(homes, w) && AnsweredStep(homes, w, l)
    requires Completes(e, w.system, l) && OpOf(w.system, l).value.DoRm?
    ensures var k := OpOf(w.system, l).value.key;
            var p, gs := Place(homes, w.fs, k, false), TreeAfter(e, homes, w, l);
            p.Ok? && (p.value in w.fs ==>
              && (p.value !in gs <==> !IsFile(w.system.store, k))
              && gs == if IsFile(w.system.store, k) then w.fs else D.Without(w.fs, p.value))
  {
    hide PlainTrees, Perform, Parse, Answered, Place, NodeAt, PathsNormal, IsFile, GoodKey, D.Without, Unlinked;
    var c, op, fs := w.system.conns[l.id], OpOf(w.system, l).value, w.fs;
    ParsedIsGood(homes, fs, c.session.value, l.request);
    DoneIsAccepted(e, w.system.store, c, c.session.value, op);
    RmTree(homes, fs, c.session.value, op.key, op.node);
    DirectoryThere(homes, fs, c.session.value, op.key);
  }

  /** A rename of a physical directory that is done moves it if and only if its row is no file row. */
  lemma DirectoryMoves(e: Env, homes: Homes, w: World, l: Label)
    requires WorldOk(homes, w) && AnsweredStep(homes, w, l)
    requires Completes(e, w.system, l) && OpOf(w.system, l).value.DoRename?
    ensures var from, to := OpOf(w.system, l).value.key, OpOf(w.system, l).value.to;
            var p, q, gs := Existing(homes, w.fs, from), Place(homes, w.fs, to, false), TreeAfter(e, homes, w, l);
            p.Ok? && q.Ok? && (p.value in w.fs ==>
              && (p.value !in gs <==> !IsFile(w.system.store, from))
              && gs == if IsFile(w.system.store, from) then w.fs else Moved(w.fs, p.value, q.value))
  {
    hide PlainTrees, Perform, Parse, Answered, Place, Existing, PathsNormal, IsFile, GoodKey, Moved, MoveRefusal;
    var c, op, fs := w.system.conns[l.id], OpOf(w.system, l).value, w.fs;
    ParsedIsGood(homes, fs, c.session.value, l.request);
    DoneIsAccepted(e, w.system.store, c, c.session.value, op);
    if !IsFile(w.system.store, op.key) {
      SourceGone(homes, fs, Existing(homes, fs, op.key).value, Place(homes, fs, op.to, false).value);
    }
  }

  lemma SourceGone(homes: Homes, fs: F.FileSystem, p: F.Path, q: F.Path)
    requires PlainTrees(homes, fs) && MoveRefusal(fs, p, q).None?
    ensures p !in Moved(fs, p, q)
  {
    hide Moved;
    MovedHas(fs, p, q, p);
  }

  // ---------------------------------------------------------------- runs

  ghost predicate AnsweredRun(e: Env, homes: Homes, w: World, ls: seq<Label>) {
    forall n | 0 <= n < |ls| :: AnsweredStep(homes, WorldRun(e, homes, w, ls[..n]), ls[n])
  }

  ghost predicate ReachRun(e: Env, homes: Homes, w: World, ls: seq<Label>) {
    forall n | 0 <= n < |ls| :: ReachGuard(e, homes, WorldRun(e, homes, w, ls[..n]), ls[n])
  }

  lemma AnsweredInit(e: Env, homes: Homes, w: World, ls: seq<Label>)
    requires AnsweredRun(e, homes, w, ls) && ls != []
    ensures AnsweredRun(e, homes, w, ls[..|ls| - 1])
    ensures AnsweredStep(homes, WorldRun(e, homes, w, ls[..|ls| - 1]), ls[|ls| - 1])
  {
    var init := ls[..|ls| - 1];
    forall n | 0 <= n < |init| ensures AnsweredStep(homes, WorldRun(e, homes, w, init[..n]), init[n]) {
      assert init[..n] == ls[..n] && init[n] == ls[n];
    }
  }

  lemma ReachInit(e: Env, homes: Homes, w: World, ls: seq<Label>)
    requires ReachRun(e, homes, w, ls) && ls != []
    ensures ReachRun(e, homes, w, ls[..|ls| - 1])
    ensures ReachGuard(e, homes, WorldRun(e, homes, w, ls[..|ls| - 1]), ls[|ls| - 1])
  {
    var init := ls[..|ls| - 1];
    forall n | 0 <= n < |init| ensures ReachGuard(e, homes, WorldRun(e, homes, w, init[..n]), init[n]) {
      assert init[..n] == ls[..n] && init[n] == ls[n];
    }
  }

  /** In every reachable world the users' roots are trees of directories, with no guard on requests. */
  lemma {:induction false} TreesStayPlain(e: Env, homes: Homes, w: World, ls: seq<Label>)
    requires WorldOk(homes, w) && AnsweredRun(e, homes, w, ls)
    ensures WorldOk(homes, WorldRun(e, homes, w, ls))
  {
    hide WorldNext, WorldOk, AnsweredStep;
    if ls != [] {
      AnsweredInit(e, homes, w, ls);
      TreesStayPlain(e, homes, w, ls[..|ls| - 1]);
      StepKeepsWorld(e, homes, WorldRun(e, homes, w, ls[..|ls| - 1]), ls[|ls| - 1]);
    }
  }

  /** Over every run that respects G6 and G7 the path of every file stays usable. */
  lemma {:induction false} FilesStayReachable(e: Env, homes: Homes, w: World, ls: seq<Label>)
    requires WorldOk(homes, w) && AnsweredRun(e, homes, w, ls) && ReachRun(e, homes, w, ls)
    requires SystemOk(e, w.system) && CollisionFreeRun(e, w.system, ls) && Reachable(homes, w.fs, w.system.store)
    ensures var z := WorldRun(e, homes, w, ls); WorldOk(homes, z) && Reachable(homes, z.fs, z.system.store)
  {
    hide WorldNext, WorldOk, AnsweredStep, SystemOk, Reachable, ReachGuard, CollisionFreeStep, CollisionFreeRun;
    if ls != [] {
      var init, last := ls[..|ls| - 1], ls[|ls| - 1];
      AnsweredInit(e, homes, w, ls);
      ReachInit(e, homes, w, ls);
      CollisionFreeInit(e, w.system, ls);
      FilesStayReachable(e, homes, w, init);
      TreesStayPlain(e, homes, w, ls);
      PublishedContentIsRight(e, w.system, init);
      WorldRunIsRun(e, homes, w, init);
      StepReaches(e, homes, WorldRun(e, homes, w, init), last);
    }
  }

  /** A fresh server over roots that hold directories only. */
  lemma StartIsPlain(homes: Homes, fs: F.FileSystem)
    requires PlainTrees(homes, fs)
    ensures var w := World(START, fs, map[]); WorldOk(homes, w) && Reachable(homes, fs, w.system.store)
  {
  }

  // ---------------------------------------------------------------- the answers are PathGuard's

  /** For a client's path: what resolve computes on texts is the place of its key. */
  lemma PlaceIsResolved(homes: Homes, fs: F.FileSystem, session: Session, path: string, mustExist: bool)
    requires PlainTrees(homes, fs) && session.userId in homes
    ensures R.ResolvedText(fs, PathText(homes[session.userId]), path, mustExist) ==
              match KeyOf(session, path)
              case Err(code) => Err(code)
              case Ok(k) => R.AsText(Place(homes, fs, k, mustExist))
  {
    hide Normalize;
    var home := homes[session.userId];
    RootIsReal(fs, home);
    if Normalize(path).Ok? {
      assert ("/" + Normalize(path).value)[1..] == Normalize(path).value;
    }
  }

  lemma RootIsReal(fs: F.FileSystem, home: F.Path)
    requires F.WellFormed(fs) && F.Canonical(fs, home)
    ensures F.RealPath(fs, [], Text.Pieces(PathText(home)[1..], '/')) == Some(home)
  {
    R.EntryNames(fs, home);
    assert PathText(home)[1..] == Text.Join(home, '/');
    if home == [] {
      assert [""][1..] == [] && F.Walk(fs, [], [""], 0) == F.Walk(fs, [], [], 0) == Some([]);
    } else {
      Text.JoinPieces(home, '/');
      F.CanonicalResolves(fs, home);
    }
    hide F.WellFormed, F.Canonical, F.Walk;
    RealIs(fs, Text.Pieces(PathText(home)[1..], '/'), home);
  }

  lemma RealIs(fs: F.FileSystem, rest: seq<string>, r: F.Path)
    requires F.Walk(fs, [], rest, 0) == Some(r)
    ensures F.RealPath(fs, [], rest) == Some(r)
  {
    assert F.Resolves(fs, [], rest, r);
    F.ResolvesUnique(fs, [], rest, r, F.RealPath(fs, [], rest).value);
  }
}
