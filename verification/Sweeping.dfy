/** Recursive removal and directory listing: LIKE queries with collection inside a loop. */
module Sweeping {
  import opened Basics
  import opened Text
  import opened Paths
  import opened PathTexts
  import opened Store
  import opened Transfer
  import opened References
  import opened Guards
  import Runs
  import Like

  // ---------------------------------------------------------------- the loop and its meaning

  lemma SweepNothing(s: Store)
    ensures Sweep(s, {}) == s
  {
    var t := Sweep(s, {});
    assert Collected(s, {}) == {};
    assert forall m :: Released(s, {}, m) == {};
    assert forall m | m in s.refs :: t.refs[m] == s.refs[m];
    assert t.refs == s.refs && t.disk == s.disk;
  }

  lemma SweepKeyMd5(s: Store, ks: set<Key>, k: Key)
    requires k !in ks
    ensures KeyMd5(Sweep(s, ks), k) == KeyMd5(s, k)
  {
  }

  lemma ReleasedOneMore(s: Store, ks: set<Key>, k: Key, m: Md5)
    ensures Released(s, ks + {k}, m) == Released(s, ks, m) + (if KeyMd5(s, k) == m then {k} else {})
  {
  }

  lemma CollectedOneMore(s: Store, ks: set<Key>, k: Key)
    ensures var m := KeyMd5(s, k);
            Collected(s, ks + {k}) ==
            Collected(s, ks) + (if m != "" && Refs(s, m) <= Released(s, ks + {k}, m) then {m} else {})
  {
    var m := KeyMd5(s, k);
    forall n ensures n != m ==> Released(s, ks + {k}, n) == Released(s, ks, n) {
      ReleasedOneMore(s, ks, k, n);
    }
    ReleasedOneMore(s, ks, k, m);
    var l := Collected(s, ks + {k});
    var r := Collected(s, ks) + (if m != "" && Refs(s, m) <= Released(s, ks + {k}, m) then {m} else {});
    forall n ensures n in l <==> n in r {
      if n in l {
        var j :| j in ks + {k} && KeyMd5(s, j) != "" && Refs(s, KeyMd5(s, j)) <= Released(s, ks + {k}, KeyMd5(s, j))
            && n == KeyMd5(s, j);
      }
      if n in Collected(s, ks) {
        var j :| j in ks && KeyMd5(s, j) != "" && Refs(s, KeyMd5(s, j)) <= Released(s, ks, KeyMd5(s, j))
            && n == KeyMd5(s, j);
        assert j in ks + {k};
      }
    }
  }

  /** Releasing one more key after a sweep is the sweep of one more key, in any order. */
  lemma SweepOneMore(s: Store, ks: set<Key>, k: Key)
    requires k !in ks
    ensures Release(Sweep(s, ks), k) == Sweep(s, ks + {k})
  {
    var t, m := Sweep(s, ks), KeyMd5(s, k);
    SweepKeyMd5(s, ks, k);
    CollectedOneMore(s, ks, k);
    DropAfterSweep(s, ks, k, m);
    assert t.rows - {k} == s.rows - (ks + {k}) && t.paths - {k} == s.paths - (ks + {k});
  }

  lemma DropAfterSweep(s: Store, ks: set<Key>, k: Key, m: Md5)
    requires k !in ks && m == KeyMd5(s, k)
    ensures var l, r := DropRef(Sweep(s, ks), m, k), Sweep(s, ks + {k});
            l.refs == r.refs && l.sizes == r.sizes && l.disk == r.disk && l.chals == r.chals
  {
    if m == "" {
      ReleasedElsewhere(s, ks, k);
      CollectedOneMore(s, ks, k);
      RefsAgree(s, ks, k, Sweep(s, ks).refs);
    } else if Refs(Sweep(s, ks), m) - {k} == {} {
      LastDropped(s, ks, k, m);
    } else {
      OneDropped(s, ks, k, m);
    }
  }

  lemma ReleasedElsewhere(s: Store, ks: set<Key>, k: Key)
    ensures forall n | n != KeyMd5(s, k) :: Released(s, ks + {k}, n) == Released(s, ks, n)
  {
    forall n ensures n != KeyMd5(s, k) ==> Released(s, ks + {k}, n) == Released(s, ks, n) {
      ReleasedOneMore(s, ks, k, n);
    }
  }

  /** What is left of the key's reference set. */
  lemma LeftAfterSweep(s: Store, ks: set<Key>, k: Key, m: Md5)
    requires k !in ks && m == KeyMd5(s, k) && m != ""
    ensures Refs(Sweep(s, ks), m) - {k} == if m in Collected(s, ks) then {} else Refs(s, m) - Released(s, ks + {k}, m)
  {
    ReleasedOneMore(s, ks, k, m);
  }

  lemma LastDropped(s: Store, ks: set<Key>, k: Key, m: Md5)
    requires k !in ks && m == KeyMd5(s, k) && m != "" && Refs(Sweep(s, ks), m) - {k} == {}
    ensures var l, r := DropRef(Sweep(s, ks), m, k), Sweep(s, ks + {k});
            l.refs == r.refs && l.sizes == r.sizes && l.disk == r.disk && l.chals == r.chals
  {
    LeftAfterSweep(s, ks, k, m);
    ReleasedElsewhere(s, ks, k);
    CollectedOneMore(s, ks, k);
    if m in Collected(s, ks) {
      CollectedStays(s, ks, k, m);
    }
    hide Released, Collected;
    assert Collected(s, ks + {k}) == Collected(s, ks) + {m};
    RefsAgree(s, ks, k, Sweep(s, ks).refs - {m});
    FilesAgree(s.sizes, Collected(s, ks), m);
    FilesAgree(s.disk.objects, Collected(s, ks), m);
  }

  /** A content collected already has all its references in the sweep. */
  lemma CollectedStays(s: Store, ks: set<Key>, k: Key, m: Md5)
    requires m in Collected(s, ks)
    ensures Refs(s, m) <= Released(s, ks + {k}, m)
  {
    ReleasedOneMore(s, ks, k, m);
  }

  lemma OneDropped(s: Store, ks: set<Key>, k: Key, m: Md5)
    requires k !in ks && m == KeyMd5(s, k) && m != "" && Refs(Sweep(s, ks), m) - {k} != {}
    ensures var l, r := DropRef(Sweep(s, ks), m, k), Sweep(s, ks + {k});
            l.refs == r.refs && l.sizes == r.sizes && l.disk == r.disk && l.chals == r.chals
  {
    LeftAfterSweep(s, ks, k, m);
    ReleasedElsewhere(s, ks, k);
    CollectedOneMore(s, ks, k);
    hide Released, Collected;
    assert Collected(s, ks + {k}) == Collected(s, ks);
    RefsAgree(s, ks, k, Sweep(s, ks).refs[m := Refs(Sweep(s, ks), m) - {k}]);
  }

  lemma FilesAgree<T>(all: map<Md5, T>, gone: set<Md5>, m: Md5)
    ensures all - gone - {m} == all - (gone + {m})
  {
  }

  /** The reference sets after a sweep are determined entry by entry. */
  lemma RefsAgree(s: Store, ks: set<Key>, k: Key, refs: map<Md5, set<Key>>)
    requires forall n :: n in refs <==> n in s.refs && n !in Collected(s, ks + {k})
    requires forall n | n in refs :: refs[n] == s.refs[n] - (if n == "" then {} else Released(s, ks + {k}, n))
    ensures refs == Sweep(s, ks + {k}).refs
  {
  }

  function Elements(ks: seq<Key>): set<Key> {
    set k | k in ks
  }

  lemma ElementsIn(ks: seq<Key>, k: Key)
    ensures k in Elements(ks) <==> k in ks
  {
  }

  lemma ElementsSnoc(ks: seq<Key>, k: Key)
    ensures Elements(ks + [k]) == Elements(ks) + {k}
  {
  }

  /** The loop of releaseIndexedUnderPrefix over the fetched rows. */
  function ReleaseAll(s: Store, ks: seq<Key>): Store {
    if ks == [] then s else Release(ReleaseAll(s, ks[..|ks| - 1]), ks[|ks| - 1])
  }

  /** In whatever order the rows are fetched, the loop is one sweep. */
  lemma {:induction false} LoopIsSweep(s: Store, ks: seq<Key>)
    requires forall i, j | 0 <= i < j < |ks| :: ks[i] != ks[j]
    ensures ReleaseAll(s, ks) == Sweep(s, Elements(ks))
  {
    if ks == [] {
      SweepNothing(s);
      assert Elements(ks) == {};
    } else {
      var init, last := ks[..|ks| - 1], ks[|ks| - 1];
      assert ks == init + [last];
      LoopIsSweep(s, init);
      SweepOneMore(s, Elements(init), last);
      ElementsSnoc(init, last);
    }
  }

  // ---------------------------------------------------------------- what lies under a directory

  lemma NoBackslash(parts: seq<string>)
    requires NormalForm(parts)
    ensures '\\' !in PathText(parts) && '\\' !in DirText(parts)
  {
    JoinChars(parts, '\\');
    DirTextIs(parts);
  }

  /** No file row of the user lies below the directory. */
  ghost predicate NothingUnder(s: Store, user: int, dir: seq<string>) {
    forall path | NormalForm(path) && dir < path :: !IsFile(s, Key(user, PathText(path)))
  }

  /** The query selects every file below the directory. */
  lemma SelectedBelow(s: Store, user: int, dir: seq<string>, path: seq<string>)
    requires NormalForm(dir) && NormalForm(path) && dir < path && IsFile(s, Key(user, PathText(path)))
    ensures Key(user, PathText(path)) in Selected(s, user, PathText(dir))
  {
    NoBackslash(dir);
    UnderIsDescendant(dir, path);
    Like.PrefixMatches(DirText(dir), PathText(path));
  }

  /** And nothing else, unless the directory's name holds a wildcard. */
  lemma SelectedOnlyBelow(s: Store, user: int, dir: seq<string>, path: seq<string>)
    requires NormalForm(dir) && NormalForm(path) && path != []
    requires Key(user, PathText(path)) in Selected(s, user, PathText(dir))
    requires '%' !in PathText(dir) && '_' !in PathText(dir)
    ensures dir < path
  {
    NoBackslash(dir);
    DirTextIs(dir);
    Like.PlainPrefixMatches(DirText(dir), PathText(path));
    UnderIsDescendant(dir, path);
  }

  lemma OtherPath(user: int, dir: seq<string>, path: seq<string>)
    requires NormalForm(dir) && NormalForm(path) && dir != path
    ensures Key(user, PathText(dir)) != Key(user, PathText(path))
  {
    assert PathText(dir)[1..] == Join(dir, '/') && PathText(path)[1..] == Join(path, '/');
    ComponentsOfJoin(dir);
    ComponentsOfJoin(path);
  }

  /** After rm of a physical directory nothing lies under it exactly when its row was no file row, as the row of a
      renamed directory is, or nothing lay under it before. */
  lemma RemoveEmpties(s: Store, user: int, dir: seq<string>)
    requires NormalForm(dir)
    ensures var k := Key(user, PathText(dir));
            NothingUnder(RemovePath(s, k, Directory), user, dir) <==> !IsFile(s, k) || NothingUnder(s, user, dir)
  {
    var k := Key(user, PathText(dir));
    var t := RemovePath(s, k, Directory);
    forall path | NormalForm(path) && dir < path
      ensures IsFile(t, Key(user, PathText(path))) <==> IsFile(s, Key(user, PathText(path))) && IsFile(s, k)
    {
      OtherPath(user, dir, path);
      if IsFile(s, Key(user, PathText(path))) {
        SelectedBelow(s, user, dir, path);
      }
    }
  }

  /** rm of a directory, whatever its row: the files it selects go, an object survives exactly when a file that was
      not selected carries it, and the subtree is empty afterwards under the condition of RemoveEmpties. The query
      selects the files below the directory, and no others unless the directory's name holds a wildcard. */
  lemma RecursiveRemove(s: Store, user: int, dir: seq<string>)
    requires Exact(s) && NormalForm(dir)
    ensures var k := Key(user, PathText(dir));
            var t, gone := RemovePath(s, k, Directory), Removed(s, k, Directory);
            && Exact(t) && Files(t) == Files(s) - gone && !IsFile(t, k)
            && (NothingUnder(t, user, dir) <==> !IsFile(s, k) || NothingUnder(s, user, dir))
            && (forall m | m != "" :: m in t.disk.objects <==> exists l :: l !in gone && FileMd5(s, l) == m)
            && (!IsFile(s, k) ==>
                  forall path | NormalForm(path) && dir < path && IsFile(s, Key(user, PathText(path))) ::
                    Key(user, PathText(path)) in gone)
            && (!IsFile(s, k) && '%' !in k.path && '_' !in k.path ==>
                  forall path | NormalForm(path) && Key(user, PathText(path)) in gone && path != [] :: dir < path)
  {
    var k := Key(user, PathText(dir));
    RemovePathOk(s, k, Directory);
    RemoveEmpties(s, user, dir);
    forall path | NormalForm(path) && dir < path && IsFile(s, Key(user, PathText(path))) && !IsFile(s, k)
      ensures Key(user, PathText(path)) in Removed(s, k, Directory)
    {
      SelectedBelow(s, user, dir, path);
    }
    forall path | NormalForm(path) && Key(user, PathText(path)) in Removed(s, k, Directory) && path != []
                  && !IsFile(s, k) && '%' !in k.path && '_' !in k.path
      ensures dir < path
    {
      SelectedOnlyBelow(s, user, dir, path);
    }
    RemovedObjects(s, k);
    assert !IsFile(RemovePath(s, k, Directory), k);
    hide Removed, RemovePath, Exact, Selected, NothingUnder;
  }

  /** An object survives exactly when a file that stays carries it. */
  lemma RemovedObjects(s: Store, k: Key)
    requires Exact(s)
    ensures var t, gone := RemovePath(s, k, Directory), Removed(s, k, Directory);
            forall m | m != "" :: m in t.disk.objects <==> exists l :: l !in gone && FileMd5(s, l) == m
  {
    var t, gone := RemovePath(s, k, Directory), Removed(s, k, Directory);
    RemovePathOk(s, k, Directory);
    assert KeyOk(s, k);
    forall m | m != "" ensures m in t.disk.objects <==> exists l :: l !in gone && FileMd5(s, l) == m {
      assert ObjectOk(t, m) && RefsExact(t, m) && RefsExact(s, m);
      assert forall l :: FileMd5(t, l) == m <==> l !in gone && FileMd5(s, l) == m;
      if m in t.disk.objects {
        var l :| l in Refs(t, m);
        assert FileMd5(t, l) == m;
      }
    }
  }

  // ---------------------------------------------------------------- listing

  /** Whether the query of listIndexed fetches a path. */
  predicate Fetched(dir: string, path: string) {
    path == dir || Like.Matches(DirPrefix(dir) + "%", path)
  }

  /** What the loop of listIndexed leaves of a fetched path before it looks for another '/'. */
  function RestAfter(prefix: string, path: string): string
    requires prefix != ""
  {
    if prefix != "/" && prefix <= path then
      var tail := path[|prefix| - 1..];
      if tail != "" && tail[0] == '/' then tail[1..] else tail
    else if prefix == "/" && path != "" && path[0] == '/' then path[1..]
    else path
  }

  predicate Listed(dir: string, path: string) {
    Fetched(dir, path) && '/' !in RestAfter(DirPrefix(dir), path)
  }

  datatype PendingFile = PendingFile(path: string, md5: Md5, size: nat)

  function Pending(rows: map<Key, Row>, k: Key): PendingFile {
    if k in rows then PendingFile(k.path, rows[k].md5, rows[k].size) else PendingFile(k.path, "", 0)
  }

  /** The loop of listIndexed over the fetched rows. */
  function ListOf(rows: map<Key, Row>, prefix: string, fetched: seq<Key>): seq<PendingFile>
    requires prefix != ""
  {
    if fetched == [] then []
    else
      var init, last := fetched[..|fetched| - 1], fetched[|fetched| - 1];
      ListOf(rows, prefix, init) + (if '/' in RestAfter(prefix, last.path) then [] else [Pending(rows, last)])
  }

  /** In whatever order the rows come, each file row that Listed selects is in the result once, and nothing
      else is. */
  lemma ListOfIsListed(rows: map<Key, Row>, user: int, prefix: string, fetched: seq<Key>)
    requires prefix != "" && forall i, j | 0 <= i < j < |fetched| :: fetched[i] != fetched[j]
    requires forall k | k in fetched :: k.user == user
    ensures var out := ListOf(rows, prefix, fetched);
            && (forall i, j | 0 <= i < j < |out| :: out[i].path != out[j].path)
            && forall f :: f in out <==>
                 Key(user, f.path) in fetched && '/' !in RestAfter(prefix, f.path)
                     && f == Pending(rows, Key(user, f.path))
  {
    ListOfMembers(rows, user, prefix, fetched);
    ListOfDistinct(rows, user, prefix, fetched);
  }

  predicate InList(rows: map<Key, Row>, user: int, prefix: string, fetched: seq<Key>, f: PendingFile)
    requires prefix != ""
  {
    Key(user, f.path) in fetched && '/' !in RestAfter(prefix, f.path) && f == Pending(rows, Key(user, f.path))
  }

  lemma {:induction false} ListOfMembers(rows: map<Key, Row>, user: int, prefix: string, fetched: seq<Key>)
    requires prefix != "" && forall k | k in fetched :: k.user == user
    ensures forall f :: f in ListOf(rows, prefix, fetched) <==> InList(rows, user, prefix, fetched, f)
  {
    if fetched != [] {
      var init, last := fetched[..|fetched| - 1], fetched[|fetched| - 1];
      assert fetched == init + [last];
      assert last in fetched && forall k | k in init :: k in fetched;
      ListOfMembers(rows, user, prefix, init);
      ListOfOneMore(rows, prefix, init, last);
      hide RestAfter, ListOf, Pending;
      forall f ensures f in ListOf(rows, prefix, fetched) <==> InList(rows, user, prefix, fetched, f) {
        assert InList(rows, user, prefix, init, f) || f != Pending(rows, last) || f.path == last.path;
        assert Key(user, last.path) == last;
      }
    }
  }

  lemma {:induction false} ListOfDistinct(rows: map<Key, Row>, user: int, prefix: string, fetched: seq<Key>)
    requires prefix != "" && forall i, j | 0 <= i < j < |fetched| :: fetched[i] != fetched[j]
    requires forall k | k in fetched :: k.user == user
    ensures var out := ListOf(rows, prefix, fetched);
            forall i, j | 0 <= i < j < |out| :: out[i].path != out[j].path
  {
    if fetched != [] {
      var init, last := fetched[..|fetched| - 1], fetched[|fetched| - 1];
      assert fetched == init + [last];
      assert last in fetched && last !in init && forall k | k in init :: k in fetched;
      ListOfDistinct(rows, user, prefix, init);
      ListOfMembers(rows, user, prefix, init);
      ListOfOneMore(rows, prefix, init, last);
      hide RestAfter, ListOf, Pending;
      forall f | f in ListOf(rows, prefix, init) ensures f.path != last.path {
        assert InList(rows, user, prefix, init, f) && Key(user, last.path) == last;
      }
    }
  }

  lemma ListOfOneMore(rows: map<Key, Row>, prefix: string, fetched: seq<Key>, last: Key)
    requires prefix != ""
    ensures ListOf(rows, prefix, fetched + [last]) ==
            ListOf(rows, prefix, fetched) + (if '/' in RestAfter(prefix, last.path) then [] else [Pending(rows, last)])
    ensures Pending(rows, last).path == last.path
  {
    assert (fetched + [last])[..|fetched|] == fetched;
  }

  /** Listing is exact whatever wildcards the directory's name holds: a path is listed iff the directory
      is its parent, the root path counting as listed under the root. */
  lemma ListingIsExact(dir: seq<string>, path: seq<string>)
    requires NormalForm(dir) && NormalForm(path)
    ensures Listed(PathText(dir), PathText(path)) <==>
            if path == [] then dir == [] else dir == path[..|path| - 1]
  {
    ListedText(dir, PathText(path));
    hide Listed, DirText, PathText, Join, NormalForm;
    if DirText(dir) <= PathText(path) && '/' !in PathText(path)[|DirText(dir)|..] {
      TextChildIsChild(dir, path);
    } else {
      if path != [] && dir == path[..|path| - 1] {
        ChildIsListed(dir, path);
      }
      if path == [] && dir == [] {
        RootIsListed();
      }
    }
  }

  lemma RootIsListed()
    ensures DirText([]) <= PathText([]) && '/' !in PathText([])[|DirText([])|..]
  {
    DirTextIs([]);
  }

  lemma ChildIsListed(dir: seq<string>, path: seq<string>)
    requires NormalForm(path) && path != [] && dir == path[..|path| - 1]
    ensures DirText(dir) <= PathText(path) && '/' !in PathText(path)[|DirText(dir)|..]
  {
    var name := path[|path| - 1];
    assert name in path && path == dir + [name];
    assert NormalForm(dir) by { assert forall c | c in dir :: c in path; }
    ChildIsTextChild(dir, name);
  }

  lemma ChildText(dir: seq<string>, name: string)
    requires NormalForm(dir)
    ensures PathText(dir + [name]) == DirText(dir) + name
  {
    DirTextIs(dir);
    if dir != [] {
      JoinSnoc(dir, name);
    }
  }

  lemma TextChildIsChild(dir: seq<string>, path: seq<string>)
    requires NormalForm(dir) && NormalForm(path)
    requires DirText(dir) <= PathText(path) && '/' !in PathText(path)[|DirText(dir)|..]
    ensures if path == [] then dir == [] else dir == path[..|path| - 1]
  {
    var name := PathText(path)[|DirText(dir)|..];
    ChildText(dir, name);
    PathTextInjective(path, dir + [name]);
  }

  lemma ChildIsTextChild(dir: seq<string>, name: string)
    requires NormalForm(dir) && '/' !in name
    ensures var p := PathText(dir + [name]);
            DirText(dir) <= p && p[|DirText(dir)|..] == name
  {
    ChildText(dir, name);
  }

  /** The loop keeps a path exactly when nothing but one name follows the prefix. */
  lemma RestMeans(d: string, p: string)
    requires d != "" && d[|d| - 1] == '/' && p != "" && p[0] == '/'
    ensures '/' !in RestAfter(d, p) <==> d <= p && '/' !in p[|d|..]
  {
    assert p[0] in p;
    if d <= p && d != "/" {
      assert p[|d| - 1..][0] == '/';
      assert p[|d| - 1..][1..] == p[|d|..];
    }
    if d == "/" {
      assert d <= p;
    }
  }

  lemma ListedText(dir: seq<string>, p: string)
    requires NormalForm(dir) && p != "" && p[0] == '/'
    ensures Listed(PathText(dir), p) <==> DirText(dir) <= p && '/' !in p[|DirText(dir)|..]
  {
    RestMeans(DirText(dir), p);
    NoBackslash(dir);
    hide PathText, RestAfter, NormalForm;
    if DirText(dir) <= p {
      Like.PrefixMatches(DirText(dir), p);
    }
  }

  /** In every reachable state: of the stored paths exactly the children of the directory are listed. */
  lemma StoredListingIsExact(e: Env, y: Runs.System, ls: seq<Runs.Label>, dir: seq<string>, k: Key)
    requires Runs.PathsNormal(y) && NormalForm(dir) && k in Runs.Run(e, y, ls).store.rows
    ensures k.path != ""
    ensures var path := Components(k.path[1..]);
            && k.path == PathText(path)
            && (Listed(PathText(dir), k.path) <==> if path == [] then dir == [] else dir == path[..|path| - 1])
  {
    hide Runs.Run, Listed, Runs.Next;
    Runs.StoredPathsAreNormal(e, y, ls);
    var path := Components(k.path[1..]);
    assert Runs.NormalPath(k.path);
    PiecesJoin(k.path[1..], '/');
    assert k.path == "/" + k.path[1..];
    ListingIsExact(dir, path);
  }
}
