/** A POSIX file system of directories, files and symbolic links, and what realpath(3) finds in it. */
module FileSystems {
  import opened Basics

  /** Names from the root of the file system down. */
  type Path = seq<string>

  /** The text of a symbolic link, split at '/'; it may hold "", "." and "..". */
  datatype Target = Target(absolute: bool, parts: seq<string>)

  datatype Entry = Directory | File | Link(target: Target) | Special

  type FileSystem = map<Path, Entry>

  predicate FileName(c: string) {
    c != "" && c != "." && c != ".." && '/' !in c
  }

  function Parent(p: Path): Path {
    if p == [] then [] else p[..|p| - 1]
  }

  /** The root is a directory, and so is whatever holds an entry. */
  ghost predicate WellFormed(fs: FileSystem) {
    && [] in fs && fs[[]] == Directory
    && forall p | p in fs && p != [] :: Parent(p) in fs && fs[Parent(p)] == Directory && FileName(p[|p| - 1])
  }

  /** A path whose names are all real: nothing on it is a link. */
  predicate Canonical(fs: FileSystem, p: Path) {
    p in fs && !fs[p].Link?
  }

  /** Path resolution from `cur`: `rest` is still to be looked up, and `fuel` bounds the links followed. */
  function Walk(fs: FileSystem, cur: Path, rest: seq<string>, fuel: nat): Option<Path>
    decreases fuel, |rest|
  {
    if rest == [] then Some(cur)
    else if cur !in fs || fs[cur] != Directory then None
    else if rest[0] == "" || rest[0] == "." then Walk(fs, cur, rest[1..], fuel)
    else if rest[0] == ".." then Walk(fs, Parent(cur), rest[1..], fuel)
    else
      var next := cur + [rest[0]];
      if next !in fs then None
      else if !fs[next].Link? then Walk(fs, next, rest[1..], fuel)
      else if fuel == 0 then None
      else Walk(fs, if fs[next].target.absolute then [] else cur, fs[next].target.parts + rest[1..], fuel - 1)
  }

  /** `rest` looked up from `cur` ends at `r`, after finitely many links. */
  ghost predicate Resolves(fs: FileSystem, cur: Path, rest: seq<string>, r: Path) {
    exists fuel: nat :: Walk(fs, cur, rest, fuel) == Some(r)
  }

  lemma {:induction false} MoreFuel(fs: FileSystem, cur: Path, rest: seq<string>, fuel: nat, more: nat)
    requires fuel <= more && Walk(fs, cur, rest, fuel).Some?
    ensures Walk(fs, cur, rest, more) == Walk(fs, cur, rest, fuel)
    decreases fuel, |rest|
  {
    if rest != [] {
      var next := cur + [rest[0]];
      if rest[0] == "" || rest[0] == "." {
        MoreFuel(fs, cur, rest[1..], fuel, more);
      } else if rest[0] == ".." {
        MoreFuel(fs, Parent(cur), rest[1..], fuel, more);
      } else if !fs[next].Link? {
        MoreFuel(fs, next, rest[1..], fuel, more);
      } else {
        MoreFuel(fs, if fs[next].target.absolute then [] else cur, fs[next].target.parts + rest[1..], fuel - 1,
            more - 1);
      }
    }
  }

  lemma ResolvesUnique(fs: FileSystem, cur: Path, rest: seq<string>, r: Path, other: Path)
    requires Resolves(fs, cur, rest, r) && Resolves(fs, cur, rest, other)
    ensures r == other
  {
    var f: nat :| Walk(fs, cur, rest, f) == Some(r);
    var g: nat :| Walk(fs, cur, rest, g) == Some(other);
    MoreFuel(fs, cur, rest, f, f + g);
    MoreFuel(fs, cur, rest, g, f + g);
  }

  /** A lookup in two parts. */
  lemma {:induction false} WalkJoin(fs: FileSystem, cur: Path, a: seq<string>, b: seq<string>, mid: Path, f: nat,
                                    g: nat)
    requires Walk(fs, cur, a, f) == Some(mid) && Walk(fs, mid, b, g).Some?
    ensures Walk(fs, cur, a + b, f + g) == Walk(fs, mid, b, g)
    decreases f, |a|
  {
    if a == [] {
      assert a + b == b;
      MoreFuel(fs, mid, b, g, f + g);
    } else {
      assert (a + b)[0] == a[0] && (a + b)[1..] == a[1..] + b;
      var next := cur + [a[0]];
      if a[0] == "" || a[0] == "." {
        WalkJoin(fs, cur, a[1..], b, mid, f, g);
      } else if a[0] == ".." {
        WalkJoin(fs, Parent(cur), a[1..], b, mid, f, g);
      } else if !fs[next].Link? {
        WalkJoin(fs, next, a[1..], b, mid, f, g);
      } else {
        var t := fs[next].target;
        WalkJoin(fs, if t.absolute then [] else cur, t.parts + a[1..], b, mid, f - 1, g);
        assert t.parts + a[1..] + b == t.parts + (a[1..] + b);
      }
    }
  }

  lemma {:induction false} WalkCut(fs: FileSystem, cur: Path, a: seq<string>, b: seq<string>, f: nat)
    returns (mid: Path)
    requires Walk(fs, cur, a + b, f).Some?
    ensures Walk(fs, cur, a, f) == Some(mid) && Walk(fs, mid, b, f) == Walk(fs, cur, a + b, f)
    decreases f, |a|
  {
    if a == [] {
      assert a + b == b;
      mid := cur;
    } else {
      assert (a + b)[0] == a[0] && (a + b)[1..] == a[1..] + b;
      var next := cur + [a[0]];
      if a[0] == "" || a[0] == "." {
        mid := WalkCut(fs, cur, a[1..], b, f);
      } else if a[0] == ".." {
        mid := WalkCut(fs, Parent(cur), a[1..], b, f);
      } else if !fs[next].Link? {
        mid := WalkCut(fs, next, a[1..], b, f);
      } else {
        var t := fs[next].target;
        assert t.parts + a[1..] + b == t.parts + (a[1..] + b);
        var start := if t.absolute then [] else cur;
        mid := WalkCut(fs, start, t.parts + a[1..], b, f - 1);
        MoreFuel(fs, mid, b, f - 1, f);
      }
    }
  }

  lemma ResolvesJoin(fs: FileSystem, cur: Path, a: seq<string>, b: seq<string>, mid: Path, r: Path)
    requires Resolves(fs, cur, a, mid)
    ensures Resolves(fs, cur, a + b, r) <==> Resolves(fs, mid, b, r)
  {
    var f: nat :| Walk(fs, cur, a, f) == Some(mid);
    if Resolves(fs, mid, b, r) {
      var g: nat :| Walk(fs, mid, b, g) == Some(r);
      WalkJoin(fs, cur, a, b, mid, f, g);
    }
    if Resolves(fs, cur, a + b, r) {
      var g: nat :| Walk(fs, cur, a + b, g) == Some(r);
      var m := WalkCut(fs, cur, a, b, g);
      ResolvesUnique(fs, cur, a, m, mid);
    }
  }

  /** A lookup that starts at a canonical path ends at one. */
  lemma {:induction false} WalkIsCanonical(fs: FileSystem, cur: Path, rest: seq<string>, fuel: nat)
    requires WellFormed(fs) && Canonical(fs, cur) && Walk(fs, cur, rest, fuel).Some?
    ensures Canonical(fs, Walk(fs, cur, rest, fuel).value)
    decreases fuel, |rest|
  {
    if rest != [] {
      var next := cur + [rest[0]];
      if rest[0] == "" || rest[0] == "." {
        WalkIsCanonical(fs, cur, rest[1..], fuel);
      } else if rest[0] == ".." {
        WalkIsCanonical(fs, Parent(cur), rest[1..], fuel);
      } else if !fs[next].Link? {
        WalkIsCanonical(fs, next, rest[1..], fuel);
      } else {
        WalkIsCanonical(fs, if fs[next].target.absolute then [] else cur, fs[next].target.parts + rest[1..], fuel - 1);
      }
    }
  }

  /** A canonical path is its own realpath. */
  lemma {:induction false} CanonicalResolves(fs: FileSystem, p: Path)
    requires WellFormed(fs) && Canonical(fs, p)
    ensures Walk(fs, [], p, 0) == Some(p)
  {
    if p != [] {
      hide WellFormed, Canonical, Walk;
      var dir, name := Parent(p), p[|p| - 1];
      ParentIsCanonical(fs, p);
      CanonicalResolves(fs, dir);
      assert p == dir + [name];
      RealStep(fs, dir, name);
      WalkJoin(fs, [], dir, [name], dir, 0, 0);
    }
  }

  lemma ParentIsCanonical(fs: FileSystem, p: Path)
    requires WellFormed(fs) && p in fs && p != []
    ensures Canonical(fs, Parent(p)) && fs[Parent(p)] == Directory && p == Parent(p) + [p[|p| - 1]]
  {
  }

  /** Looking up a real entry. */
  lemma RealStep(fs: FileSystem, dir: Path, name: string)
    requires WellFormed(fs) && Canonical(fs, dir + [name])
    ensures Walk(fs, dir, [name], 0) == Some(dir + [name])
  {
    var p := dir + [name];
    assert Parent(p) == dir && p[|p| - 1] == name && [name][1..] == [];
    assert Walk(fs, p, [], 0) == Some(p);
  }

  /** realpath(3), without a limit on the number of links. */
  ghost function RealPath(fs: FileSystem, cur: Path, rest: seq<string>): (r: Option<Path>)
    ensures r.Some? ==> Resolves(fs, cur, rest, r.value)
    ensures r.None? ==> forall p :: !Resolves(fs, cur, rest, p)
  {
    if exists p :: Resolves(fs, cur, rest, p) then
      var p :| Resolves(fs, cur, rest, p);
      Some(p)
    else None
  }
}
