/** PathGuard::resolve (src/path_guard.cpp): a walk that never leaves the user's root. */
module Resolution {
  import opened Basics
  import opened Text
  import opened Paths
  import opened PathTexts
  import opened FileSystems

  // ---------------------------------------------------------------- path texts

  /** joinPath */
  function JoinPath(a: string, b: string): string {
    if a == "" then b
    else if b == "" then a
    else if a[|a| - 1] == '/' && b[0] == '/' then a + b[1..]
    else if a[|a| - 1] != '/' && b[0] != '/' then a + "/" + b
    else a + b
  }

  /** startsWithPath, for a root that is not empty. */
  predicate IsInside(path: string, root: string)
    requires root != ""
  {
    path == root || (if root[|root| - 1] == '/' then root else root + "/") <= path
  }

  lemma JoinPathText(dir: seq<string>, name: string)
    requires Names(dir) && name != "" && '/' !in name
    ensures JoinPath(PathText(dir), name) == PathText(dir + [name])
  {
    assert name[0] in name;
    if dir == [] {
      assert dir + [name] == [name];
    } else {
      JoinEnds(dir);
      JoinSnoc(dir, name);
    }
  }

  /** A path text is inside another exactly when its names begin with the other's: "/ab" is not inside "/a". */
  lemma InsideMeans(path: seq<string>, root: seq<string>)
    requires Names(path) && Names(root)
    ensures IsInside(PathText(path), PathText(root)) <==> root <= path
  {
    UnderIsDescendant(root, path);
    RootText(root);
    if PathText(path) == PathText(root) {
      SameText(path, root);
    }
  }

  lemma RootText(root: seq<string>)
    requires Names(root)
    ensures var t := PathText(root); DirText(root) == if t[|t| - 1] == '/' then t else t + "/"
  {
    DirTextIs(root);
    if root != [] {
      JoinEnds(root);
    }
  }

  lemma SameText(a: seq<string>, b: seq<string>)
    requires Names(a) && Names(b) && PathText(a) == PathText(b)
    ensures a == b
  {
    JoinNonEmpty(a);
    JoinNonEmpty(b);
    assert PathText(a)[1..] == Join(a, '/') && PathText(b)[1..] == Join(b, '/');
    if b != [] {
      PathTextInjective(a, b);
    }
  }

  lemma EntryNames(fs: FileSystem, p: Path)
    requires WellFormed(fs) && p in fs
    ensures Names(p)
  {
    if p != [] {
      EntryNames(fs, Parent(p));
      assert p == Parent(p) + [p[|p| - 1]];
    }
  }

  // ---------------------------------------------------------------- the walk

  /** One name further: an entry is entered, a link is followed to its end, and the end must be inside. */
  ghost function StepTo(fs: FileSystem, root: Path, cur: Path, name: string): Result<Path> {
    var next := cur + [name];
    if next !in fs then Err(NotFound)
    else if !fs[next].Link? then Ok(next)
    else
      var found := RealPath(fs, [], next);
      if found.None? then Err(NotFound)
      else if root <= found.value then Ok(found.value)
      else Err(Forbidden)
  }

  ghost function Follow(fs: FileSystem, root: Path, names: seq<string>): Result<Path> {
    if names == [] then Ok(root)
    else
      var before := Follow(fs, root, names[..|names| - 1]);
      if before.Err? then before else StepTo(fs, root, before.value, names[|names| - 1])
  }

  /** What resolve finds for normalised names; only the last one may be missing, and only if it need not exist. */
  ghost function Resolved(fs: FileSystem, root: Path, names: seq<string>, mustExist: bool): Result<Path> {
    if names == [] then Ok(root)
    else
      var before := Follow(fs, root, names[..|names| - 1]);
      if before.Ok? && before.value + [names[|names| - 1]] !in fs && !mustExist
      then Ok(before.value + [names[|names| - 1]])
      else Follow(fs, root, names)
  }

  // ---------------------------------------------------------------- what it means

  ghost predicate Root(fs: FileSystem, root: Path) {
    WellFormed(fs) && Canonical(fs, root)
  }

  predicate PlainNames(names: seq<string>) {
    forall c | c in names :: FileName(c)
  }

  /** The names, as far as they lead anywhere, lead inside the root. */
  ghost predicate StaysInside(fs: FileSystem, root: Path, names: seq<string>) {
    forall n, p | 0 <= n <= |names| && Resolves(fs, root, names[..n], p) :: root <= p
  }

  /** A link in a canonical directory: its realpath is where the lookup of its name leads. */
  lemma RealOfLink(fs: FileSystem, cur: Path, name: string, r: Path)
    requires WellFormed(fs) && Canonical(fs, cur)
    ensures Resolves(fs, [], cur + [name], r) <==> Resolves(fs, cur, [name], r)
  {
    CanonicalResolves(fs, cur);
    ResolvesJoin(fs, [], cur, [name], cur, r);
  }

  lemma EntryResolves(fs: FileSystem, cur: Path, name: string)
    requires WellFormed(fs) && Canonical(fs, cur + [name])
    ensures Resolves(fs, cur, [name], cur + [name])
  {
    RealStep(fs, cur, name);
  }

  lemma MissingResolves(fs: FileSystem, cur: Path, name: string, r: Path)
    requires FileName(name) && cur + [name] !in fs
    ensures !Resolves(fs, cur, [name], r)
  {
  }

  /** One step of the walk against path resolution. */
  lemma StepIsCanonical(fs: FileSystem, root: Path, cur: Path, name: string)
    requires Root(fs, root) && Canonical(fs, cur) && root <= cur && FileName(name)
    ensures var s := StepTo(fs, root, cur, name);
            && (s.Ok? ==> Canonical(fs, s.value) && root <= s.value && Resolves(fs, cur, [name], s.value))
            && (s == Err(NotFound) ==> forall r :: !Resolves(fs, cur, [name], r))
            && (s.Err? && s != Err(NotFound) ==>
                  s == Err(Forbidden) && exists r :: Resolves(fs, cur, [name], r) && !(root <= r))
  {
    var next := cur + [name];
    var s := StepTo(fs, root, cur, name);
    if next !in fs {
      forall r ensures !Resolves(fs, cur, [name], r) {
        MissingResolves(fs, cur, name, r);
      }
    } else if !fs[next].Link? {
      EntryResolves(fs, cur, name);
    } else {
      var found := RealPath(fs, [], next);
      forall r ensures Resolves(fs, [], next, r) <==> Resolves(fs, cur, [name], r) {
        RealOfLink(fs, cur, name, r);
      }
      if found.Some? {
        var f: nat :| Walk(fs, [], next, f) == Some(found.value);
        WalkIsCanonical(fs, [], next, f);
      }
    }
  }

  /** The walk finds exactly the canonical path of root/names, if the way there stays inside the root; it says
      NotFound exactly when the names lead nowhere without having left the root, and Forbidden otherwise. */
  lemma {:induction false} FollowIsCanonical(fs: FileSystem, root: Path, names: seq<string>)
    requires Root(fs, root) && PlainNames(names)
    ensures var r := Follow(fs, root, names);
            && (r.Ok? ==>
                  && Canonical(fs, r.value) && root <= r.value
                  && Resolves(fs, root, names, r.value) && StaysInside(fs, root, names))
            && (r == Err(NotFound) ==> StaysInside(fs, root, names) && forall p :: !Resolves(fs, root, names, p))
            && (r.Err? && r != Err(NotFound) ==> r == Err(Forbidden) && !StaysInside(fs, root, names))
  {
    hide Canonical, Resolves, StaysInside, StepTo, WellFormed;
    if names == [] {
      StaysAtRoot(fs, root);
    } else {
      var init, name := names[..|names| - 1], names[|names| - 1];
      assert names == init + [name] && name in names && forall c | c in init :: c in names;
      FollowIsCanonical(fs, root, init);
      var before := Follow(fs, root, init);
      if before.Ok? {
        StepIsCanonical(fs, root, before.value, name);
        OneNameFurther(fs, root, init, name, before.value);
      } else {
        NoFurther(fs, root, init, name);
      }
    }
  }

  lemma StaysAtRoot(fs: FileSystem, root: Path)
    ensures StaysInside(fs, root, []) && Resolves(fs, root, [], root)
  {
    assert Walk(fs, root, [], 0) == Some(root);
    forall n, p | 0 <= n <= 0 && Resolves(fs, root, [][..n], p) ensures root <= p {
      ResolvesUnique(fs, root, [], root, p);
    }
  }

  /** Staying inside is a matter of each prefix. */
  lemma StaysSnoc(fs: FileSystem, root: Path, names: seq<string>, name: string)
    ensures StaysInside(fs, root, names + [name]) <==>
            StaysInside(fs, root, names) && forall p | Resolves(fs, root, names + [name], p) :: root <= p
  {
    var all := names + [name];
    assert all[..|all|] == all;
    assert forall n | 0 <= n <= |names| :: all[..n] == names[..n];
    if StaysInside(fs, root, all) {
      forall n, p | 0 <= n <= |names| && Resolves(fs, root, names[..n], p) ensures root <= p {
        assert all[..n] == names[..n];
      }
      forall p | Resolves(fs, root, all, p) ensures root <= p {
        assert Resolves(fs, root, all[..|all|], p);
      }
    }
    if StaysInside(fs, root, names) && forall p | Resolves(fs, root, all, p) :: root <= p {
      forall n, p | 0 <= n <= |all| && Resolves(fs, root, all[..n], p) ensures root <= p {
        if n <= |names| {
          assert all[..n] == names[..n];
        } else {
          assert n == |all|;
        }
      }
    }
  }

  lemma OneNameFurther(fs: FileSystem, root: Path, init: seq<string>, name: string, cur: Path)
    requires Resolves(fs, root, init, cur) && StaysInside(fs, root, init)
    ensures forall r :: Resolves(fs, root, init + [name], r) <==> Resolves(fs, cur, [name], r)
    ensures StaysInside(fs, root, init + [name]) <==> forall r | Resolves(fs, cur, [name], r) :: root <= r
    ensures forall r, s | Resolves(fs, cur, [name], r) && Resolves(fs, cur, [name], s) :: r == s
  {
    hide Resolves, StaysInside;
    forall r ensures Resolves(fs, root, init + [name], r) <==> Resolves(fs, cur, [name], r) {
      ResolvesJoin(fs, root, init, [name], cur, r);
    }
    StaysSnoc(fs, root, init, name);
    forall r, s | Resolves(fs, cur, [name], r) && Resolves(fs, cur, [name], s) ensures r == s {
      ResolvesUnique(fs, cur, [name], r, s);
    }
  }

  /** Names that lead nowhere lead nowhere with one more; names that left the root have left it. */
  lemma NoFurther(fs: FileSystem, root: Path, init: seq<string>, name: string)
    ensures (forall p :: !Resolves(fs, root, init, p)) ==>
              && (forall p :: !Resolves(fs, root, init + [name], p))
              && (StaysInside(fs, root, init) ==> StaysInside(fs, root, init + [name]))
    ensures !StaysInside(fs, root, init) ==> !StaysInside(fs, root, init + [name])
  {
    StaysSnoc(fs, root, init, name);
    forall p | Resolves(fs, root, init + [name], p) ensures exists mid :: Resolves(fs, root, init, mid) {
      var f: nat :| Walk(fs, root, init + [name], f) == Some(p);
      var mid := WalkCut(fs, root, init, [name], f);
      assert Resolves(fs, root, init, mid);
    }
  }

  /** A path that must exist resolves to r exactly when r is its canonical path and the way there stays inside
      the root; one that need not exist may also be a missing child of such a path. */
  lemma ResolveIsCanonical(fs: FileSystem, root: Path, names: seq<string>, r: Path)
    requires Root(fs, root) && PlainNames(names)
    ensures Resolved(fs, root, names, true) == Ok(r) <==> Resolves(fs, root, names, r) && StaysInside(fs, root, names)
    ensures Resolved(fs, root, names, false) == Ok(r) <==>
              (Resolves(fs, root, names, r) && StaysInside(fs, root, names)) || MissingChild(fs, root, names, r)
  {
    hide Resolves, StaysInside, WellFormed, Canonical, Follow, MissingChild;
    ExistingIsCanonical(fs, root, names, r);
    if names != [] {
      var init, name := names[..|names| - 1], names[|names| - 1];
      assert names == init + [name] && name in names && forall c | c in init :: c in names;
      ChildOfPrefix(fs, root, init, name, r);
    } else {
      assert !MissingChild(fs, root, names, r) by { NoChild(fs, root, r); }
      assert Follow(fs, root, []) == Ok(root) by { NothingToFollow(fs, root); }
    }
  }

  lemma NoChild(fs: FileSystem, root: Path, r: Path)
    ensures !MissingChild(fs, root, [], r)
  {
  }

  lemma NothingToFollow(fs: FileSystem, root: Path)
    ensures Follow(fs, root, []) == Ok(root)
  {
  }

  lemma ExistingIsCanonical(fs: FileSystem, root: Path, names: seq<string>, r: Path)
    requires Root(fs, root) && PlainNames(names)
    ensures Follow(fs, root, names) == Ok(r) <==> Resolves(fs, root, names, r) && StaysInside(fs, root, names)
  {
    hide Follow, StaysInside, Resolves, Canonical, WellFormed;
    FollowIsCanonical(fs, root, names);
    var all := Follow(fs, root, names);
    if all.Ok? && Resolves(fs, root, names, r) {
      ResolvesUnique(fs, root, names, all.value, r);
    }
  }

  /** The names but the last lead to a position inside the root, directory or not, where the last one is not there. */
  ghost predicate MissingChild(fs: FileSystem, root: Path, names: seq<string>, r: Path) {
    names != [] &&
    StaysInside(fs, root, Parent(names)) && r !in fs &&
    exists dir :: Resolves(fs, root, Parent(names), dir) && dir + [names[|names| - 1]] == r
  }

  lemma ChildOfPrefix(fs: FileSystem, root: Path, init: seq<string>, name: string, r: Path)
    requires Root(fs, root) && PlainNames(init) && FileName(name)
    ensures var before := Follow(fs, root, init);
            MissingChild(fs, root, init + [name], r) <==>
            before.Ok? && before.value + [name] == r && r !in fs
    ensures Follow(fs, root, init).Ok? && Follow(fs, root, init).value + [name] !in fs ==>
            forall p :: !Resolves(fs, root, init + [name], p)
  {
    FollowIsCanonical(fs, root, init);
    var before := Follow(fs, root, init);
    assert Parent(init + [name]) == init;
    if before.Ok? {
      forall dir | Resolves(fs, root, init, dir) ensures dir == before.value {
        ResolvesUnique(fs, root, init, dir, before.value);
      }
      forall p ensures before.value + [name] !in fs ==> !Resolves(fs, root, init + [name], p) {
        ResolvesJoin(fs, root, init, [name], before.value, p);
        if before.value + [name] !in fs {
          MissingResolves(fs, before.value, name, p);
        }
      }
    }
  }

  // ---------------------------------------------------------------- the code, on texts

  /** realpath(3) on path texts. */
  ghost predicate IsRealpath(fs: FileSystem, realpath: string -> Option<string>) {
    forall t: string | t != "" && t[0] == '/' ::
      var p := RealPath(fs, [], Pieces(t[1..], '/'));
      realpath(t) == if p.Some? then Some(PathText(p.value)) else None
  }

  /** lstat(2) of a name in a canonical directory. */
  ghost predicate IsLstat(fs: FileSystem, lstat: string -> Option<Entry>) {
    forall dir: Path, name | Canonical(fs, dir) && FileName(name) ::
      lstat(PathText(dir + [name])) == if dir + [name] in fs then Some(fs[dir + [name]]) else None
  }

  ghost function AsText(r: Result<Path>): Result<string> {
    if r.Ok? then Ok(PathText(r.value)) else Err(r.code)
  }

  ghost function ResolvedText(fs: FileSystem, userRoot: string, logical: string, mustExist: bool): Result<string> {
    if userRoot == "" || userRoot[0] != '/' then Err(Internal)
    else
      var root := RealPath(fs, [], Pieces(userRoot[1..], '/'));
      if root.None? then Err(NotFound)
      else if Normalize(logical).Err? then Err(Normalize(logical).code)
      else AsText(Resolved(fs, root.value, Components(Normalize(logical).value), mustExist))
  }

  /** A root that is not absolute is an internal error, a root that is missing is not found, and a path that cannot be
      normalised is forbidden, in this order. */
  lemma RootRefused(fs: FileSystem, userRoot: string, logical: string, mustExist: bool)
    ensures userRoot == "" || userRoot[0] != '/' ==> ResolvedText(fs, userRoot, logical, mustExist) == Err(Internal)
    ensures userRoot != "" && userRoot[0] == '/' ==>
              if !LeadsSomewhere(fs, Pieces(userRoot[1..], '/'))
              then ResolvedText(fs, userRoot, logical, mustExist) == Err(NotFound)
              else Normalize(logical).Err? ==> ResolvedText(fs, userRoot, logical, mustExist) == Err(Forbidden)
  {
    hide Normalize, Resolved, Resolves;
    NormalizeFails(logical);
    if userRoot != "" && userRoot[0] == '/' {
      RealPathFinds(fs, Pieces(userRoot[1..], '/'));
    }
  }

  /** The names lead somewhere from the root of the file system. */
  ghost predicate LeadsSomewhere(fs: FileSystem, names: seq<string>) {
    exists p :: Resolves(fs, [], names, p)
  }

  lemma RealPathFinds(fs: FileSystem, names: seq<string>)
    ensures RealPath(fs, [], names).Some? <==> LeadsSomewhere(fs, names)
  {
    hide Resolves;
    var found := RealPath(fs, [], names);
    if found.Some? {
      assert Resolves(fs, [], names, found.value);
    }
  }

  lemma RealpathOfEntry(fs: FileSystem, realpath: string -> Option<string>, p: Path)
    requires WellFormed(fs) && IsRealpath(fs, realpath) && p in fs && p != []
    ensures realpath(PathText(p)) ==
              if RealPath(fs, [], p).Some? then Some(PathText(RealPath(fs, [], p).value)) else None
  {
    EntryNames(fs, p);
    JoinPieces(p, '/');
    assert PathText(p)[1..] == Join(p, '/');
  }

  lemma RealIsCanonical(fs: FileSystem, rest: seq<string>)
    requires WellFormed(fs) && RealPath(fs, [], rest).Some?
    ensures Canonical(fs, RealPath(fs, [], rest).value) && Names(RealPath(fs, [], rest).value)
  {
    var r := RealPath(fs, [], rest).value;
    var f: nat :| Walk(fs, [], rest, f) == Some(r);
    WalkIsCanonical(fs, [], rest, f);
    EntryNames(fs, r);
  }

  /** One turn of the loop, as PathGuard::resolve makes it. */
  method EnterNext(ghost fs: FileSystem, realpath: string -> Option<string>, entry: Entry, root: string, next: string,
                   ghost rootPath: Path, ghost cur: Path, ghost name: string) returns (r: Result<string>)
    requires Root(fs, rootPath) && Canonical(fs, cur) && rootPath <= cur && FileName(name) && IsRealpath(fs, realpath)
    requires cur + [name] in fs && entry == fs[cur + [name]]
    requires root == PathText(rootPath) && next == PathText(cur + [name])
    ensures r == AsText(StepTo(fs, rootPath, cur, name))
  {
    EntryNames(fs, rootPath);
    EntryNames(fs, cur + [name]);
    if entry.Link? {
      RealpathOfEntry(fs, realpath, cur + [name]);
      var found := realpath(next);
      if found.None? {
        return Err(NotFound);
      }
      RealIsCanonical(fs, cur + [name]);
      InsideMeans(RealPath(fs, [], cur + [name]).value, rootPath);
      if !IsInside(found.value, root) {
        return Err(Forbidden);
      }
      return Ok(found.value);
    }
    InsideMeans(cur + [name], rootPath);
    if (entry.Directory? || entry.File?) && !IsInside(next, root) && next != root {
      return Err(Forbidden);
    }
    return Ok(next);
  }

  method Resolve(ghost fs: FileSystem, lstat: string -> Option<Entry>, realpath: string -> Option<string>,
                 userRoot: string, logical: string, mustExist: bool) returns (r: Result<string>)
    requires WellFormed(fs) && IsLstat(fs, lstat) && IsRealpath(fs, realpath)
    ensures r == ResolvedText(fs, userRoot, logical, mustExist)
  {
    hide IsLstat, IsRealpath, WellFormed, Canonical, StepTo, Normalize, RealPath;
    if userRoot == "" || userRoot[0] != '/' {
      return Err(Internal);
    }
    RealpathAt(fs, realpath, userRoot);
    var root := realpath(userRoot);
    if root.None? {
      return Err(NotFound);
    }
    var norm := NormalizeLogical(logical);
    if norm.Err? {
      return Err(norm.code);
    }
    ghost var rootPath := RealPath(fs, [], Pieces(userRoot[1..], '/')).value;
    RealIsCanonical(fs, Pieces(userRoot[1..], '/'));
    if norm.value == "" {
      return Ok(root.value);
    }
    NormalizeSplitsBack(logical);
    var parts := Split(norm.value, '/');
    r := FollowParts(fs, lstat, realpath, root.value, parts, mustExist, rootPath);
  }

  lemma RealpathAt(fs: FileSystem, realpath: string -> Option<string>, t: string)
    requires IsRealpath(fs, realpath) && t != "" && t[0] == '/'
    ensures var p := RealPath(fs, [], Pieces(t[1..], '/'));
            realpath(t) == if p.Some? then Some(PathText(p.value)) else None
  {
  }

  /** The loop of resolve. */
  method FollowParts(ghost fs: FileSystem, lstat: string -> Option<Entry>, realpath: string -> Option<string>,
                     root: string, parts: seq<string>, mustExist: bool, ghost rootPath: Path)
    returns (r: Result<string>)
    requires WellFormed(fs) && IsLstat(fs, lstat) && IsRealpath(fs, realpath)
    requires Root(fs, rootPath) && Names(rootPath) && root == PathText(rootPath) && PlainNames(parts) && parts != []
    ensures r == AsText(Resolved(fs, rootPath, parts, mustExist))
  {
    hide IsLstat, IsRealpath, WellFormed, Canonical, JoinPath, IsInside, PathText;
    var cur := root;
    ghost var at := rootPath;
    for i := 0 to |parts|
      invariant Follow(fs, rootPath, parts[..i]) == Ok(at) && cur == PathText(at)
      invariant Canonical(fs, at) && rootPath <= at && Names(at)
    {
      var name := parts[i];
      assert name in parts && FileName(name);
      assert parts[..i + 1][..i] == parts[..i];
      var next := JoinPath(cur, name);
      JoinPathText(at, name);
      LstatAt(fs, lstat, at, name);
      var st := lstat(next);
      if st.None? {
        if i + 1 == |parts| && !mustExist {
          InsideMeans(at, rootPath);
          if !IsInside(cur, root) {
            return Err(Forbidden);
          }
          return Ok(next);
        }
        StopsHere(fs, rootPath, parts, i, mustExist, at);
        return Err(NotFound);
      }
      var step := EnterNext(fs, realpath, st.value, root, next, rootPath, at, name);
      if step.Err? {
        StopsHere(fs, rootPath, parts, i, mustExist, at);
        return step;
      }
      StepIsCanonical(fs, rootPath, at, name);
      at := StepTo(fs, rootPath, at, name).value;
      EntryNames(fs, at);
      cur := step.value;
    }
    assert parts[..|parts|] == parts;
    InsideMeans(at, rootPath);
    if !IsInside(cur, root) {
      return Err(Forbidden);
    }
    return Ok(cur);
  }

  lemma LstatAt(fs: FileSystem, lstat: string -> Option<Entry>, dir: Path, name: string)
    requires IsLstat(fs, lstat) && Canonical(fs, dir) && FileName(name)
    ensures lstat(PathText(dir + [name])) == if dir + [name] in fs then Some(fs[dir + [name]]) else None
  {
  }

  /** Where the walk stops, the whole lookup has stopped. */
  lemma StopsHere(fs: FileSystem, root: Path, names: seq<string>, i: nat, mustExist: bool, cur: Path)
    requires i < |names| && Follow(fs, root, names[..i]) == Ok(cur) && StepTo(fs, root, cur, names[i]).Err?
    requires i + 1 < |names| || mustExist || cur + [names[i]] in fs
    ensures Resolved(fs, root, names, mustExist) == Err(StepTo(fs, root, cur, names[i]).code)
  {
    assert names[..i + 1][..i] == names[..i];
    FollowStops(fs, root, names, i + 1);
    if i + 1 < |names| {
      assert names[..|names| - 1][..i + 1] == names[..i + 1];
      FollowStops(fs, root, names[..|names| - 1], i + 1);
    } else {
      assert names[..|names| - 1] == names[..i] && names[..i + 1] == names;
    }
  }

  lemma {:induction false} FollowStops(fs: FileSystem, root: Path, names: seq<string>, n: nat)
    requires n <= |names| && Follow(fs, root, names[..n]).Err?
    ensures Follow(fs, root, names) == Follow(fs, root, names[..n])
    decreases |names|
  {
    if n == |names| {
      assert names[..n] == names;
    } else {
      assert names[..|names| - 1][..n] == names[..n];
      FollowStops(fs, root, names[..|names| - 1], n);
    }
  }
}
