/** FileManager (src/file_manager.cpp): recursive removal and recursive listing. */
module FileTrees {
  import opened Basics
  import opened PathTexts
  import opened FileSystems

  // ---------------------------------------------------------------- subtrees

  /** The entries at or below `p`. */
  function Subtree(fs: FileSystem, p: Path): set<Path> {
    set q | q in fs && p <= q
  }

  /** What readdir yields besides "." and "..". */
  function NamesIn(fs: FileSystem, dir: Path): set<string> {
    set q | q in fs && q != [] && Parent(q) == dir :: q[|q| - 1]
  }

  lemma NameIn(fs: FileSystem, dir: Path, name: string)
    ensures name in NamesIn(fs, dir) <==> dir + [name] in fs
  {
    if dir + [name] in fs {
      assert Parent(dir + [name]) == dir && (dir + [name])[|dir|] == name;
    }
    if name in NamesIn(fs, dir) {
      var q :| q in fs && q != [] && Parent(q) == dir && q[|q| - 1] == name;
      assert q == dir + [name];
    }
  }

  /** Whatever lies below a directory lies at or below one of its entries. */
  lemma BelowAnEntry(fs: FileSystem, dir: Path, q: Path)
    requires WellFormed(fs) && q in fs && dir < q
    ensures q[|dir|] in NamesIn(fs, dir) && dir + [q[|dir|]] <= q
  {
    hide NamesIn, WellFormed;
    EntryOnTheWay(dir, q);
    PrefixIsThere(fs, q, |dir| + 1);
    NameIn(fs, dir, q[|dir|]);
  }

  lemma EntryOnTheWay(dir: Path, q: Path)
    requires dir < q
    ensures q[..|dir| + 1] == dir + [q[|dir|]] && dir + [q[|dir|]] <= q
  {
    assert dir == q[..|dir|];
  }

  lemma {:induction false} PrefixIsThere(fs: FileSystem, q: Path, n: nat)
    requires WellFormed(fs) && q in fs && n <= |q|
    ensures q[..n] in fs && (n < |q| ==> fs[q[..n]] == Directory)
    decreases |q|
  {
    if n == |q| {
      assert q[..n] == q;
    } else {
      PrefixIsThere(fs, Parent(q), n);
      assert Parent(q)[..n] == q[..n];
      if n == |q| - 1 {
        assert q[..n] == Parent(q);
      }
    }
  }

  function Without(fs: FileSystem, p: Path): FileSystem {
    fs - Subtree(fs, p)
  }

  lemma WithoutIsWellFormed(fs: FileSystem, p: Path)
    requires WellFormed(fs) && p != []
    ensures WellFormed(Without(fs, p))
  {
    var r := Without(fs, p);
    forall q | q in r && q != [] ensures Parent(q) in r {
      assert p <= Parent(q) ==> p <= q;
    }
  }

  // ---------------------------------------------------------------- removal

  class FileManager {
    var fs: FileSystem

    constructor (fs: FileSystem)
      requires WellFormed(fs)
      ensures this.fs == fs
    {
      this.fs := fs;
    }

    /** rmdir or unlink of one entry. */
    method RemoveEntry(p: Path)
      requires WellFormed(fs) && p in fs && p != [] && NamesIn(fs, p) == {}
      modifies this
      ensures fs == old(fs) - {p} && fs == Without(old(fs), p) && WellFormed(fs)
    {
      forall q | q in Subtree(fs, p) ensures q == p {
        if q != p {
          BelowAnEntry(fs, p, q);
        }
      }
      assert Subtree(fs, p) == {p};
      WithoutIsWellFormed(fs, p);
      fs := fs - {p};
    }

    /** removeRecursive: everything at or below the path goes, and nothing else; links are not followed. */
    method RemoveRecursive(p: Path) returns (error: Option<ErrorCode>)
      requires WellFormed(fs) && p != []
      modifies this
      ensures WellFormed(fs)
      ensures error == if p in old(fs) then None else Some(NotFound)
      ensures fs == Without(old(fs), p)
      decreases |Subtree(fs, p)|, 1
    {
      if p !in fs {
        NothingBelow(fs, p);
        return Some(NotFound);
      }
      if fs[p] == Directory {
        RemoveEntries(p);
      } else {
        NoEntries(fs, p);
      }
      RemoveEntry(p);
      return None;
    }

    /** The loop over a directory's entries. */
    method RemoveEntries(p: Path)
      requires WellFormed(fs) && p in fs && p != [] && fs[p] == Directory
      modifies this
      ensures WellFormed(fs) && p in fs && NamesIn(fs, p) == {}
      ensures Without(fs, p) == Without(old(fs), p) && |Subtree(fs, p)| <= |old(Subtree(fs, p))|
      decreases |Subtree(fs, p)|, 0
    {
      var unread := NamesIn(fs, p);
      while unread != {}
        invariant WellFormed(fs) && p in fs && NamesIn(fs, p) == unread
        invariant Without(fs, p) == Without(old(fs), p) && Subtree(fs, p) <= old(Subtree(fs, p))
        decreases |unread|
      {
        var name :| name in unread;
        unread := unread - {name};
        NameIn(fs, p, name);
        EntryIsSmaller(fs, p, name, old(Subtree(fs, p)));
        OneEntryLess(fs, p, name);
        var error := RemoveRecursive(p + [name]);
      }
      SubsetSize(Subtree(fs, p), old(Subtree(fs, p)));
    }

    /** One entry of the loop, and the listing below it when it is a directory. */
    method ListChild(p: Path, name: string, path: string, out: seq<FileEntry>, recursive: bool)
      returns (entries: seq<FileEntry>, ghost below: seq<Path>)
      requires WellFormed(fs) && p + [name] in fs
      ensures entries == out + [FileEntry(name, path, fs[p + [name]])] + Described(fs, p + [name], path, below)
      ensures ChildListed(fs, p + [name], recursive, below)
      decreases |Subtree(fs, p + [name])|, 1
    {
      var kind := fs[p + [name]];
      entries, below := out + [FileEntry(name, path, kind)], [];
      if recursive && kind == Directory {
        var listed;
        listed, below := ListDirRecursive(p + [name], path, entries, true);
        entries := listed.value;
      }
    }

    /** One turn of the loop. */
    method ListEntry(p: Path, prefix: string, name: string, ghost out: seq<FileEntry>, entries: seq<FileEntry>,
                     recursive: bool, ghost names: set<string>, ghost seen: seq<Path>)
      returns (more: seq<FileEntry>, ghost allSeen: seq<Path>)
      requires WellFormed(fs) && p + [name] in fs && name !in names
      requires entries == out + Described(fs, p, prefix, seen) && AllListed(fs, p, recursive, names, seen)
      ensures more == out + Described(fs, p, prefix, allSeen) && AllListed(fs, p, recursive, names + {name}, allSeen)
      decreases |Subtree(fs, p + [name])|, 2
    {
      hide AllListed, ChildListed, WellFormed, Described;
      var path := if prefix == "" then "/" + name else prefix + "/" + name;
      ghost var below: seq<Path>;
      more, below := ListChild(p, name, path, entries, recursive);
      EntryListed(fs, p, recursive, names, seen, name, below);
      EntryDescribed(fs, p, prefix, seen, name, below);
      allSeen := seen + [p + [name]] + below;
      assert path == prefix + "/" + name;
    }

    /** listDirRecursive: `seen` are the entries it describes, in order. */
    method ListDirRecursive(p: Path, prefix: string, out: seq<FileEntry>, recursive: bool)
      returns (r: Result<seq<FileEntry>>, ghost seen: seq<Path>)
      requires WellFormed(fs)
      ensures r.Ok? <==> p in fs && fs[p] == Directory
      ensures r.Err? ==> r == Err(NotFound)
      ensures r.Ok? ==>
                r.value == out + Described(fs, p, prefix, seen) && AllListed(fs, p, recursive, NamesIn(fs, p), seen)
      decreases |Subtree(fs, p)|, 0
    {
      seen := [];
      if p !in fs || fs[p] != Directory {
        return Err(NotFound), seen;
      }
      hide AllListed, NamesIn, Subtree, WellFormed, Described;
      NothingListed(fs, p, recursive);
      assert Described(fs, p, prefix, []) == [] by { NothingDescribed(fs, p, prefix); }
      var entries := out;
      var unread := NamesIn(fs, p);
      while unread != {}
        invariant unread <= NamesIn(fs, p)
        invariant entries == out + Described(fs, p, prefix, seen)
        invariant AllListed(fs, p, recursive, NamesIn(fs, p) - unread, seen)
        decreases |unread|
      {
        var name :| name in unread;
        NameIn(fs, p, name);
        EntryIsSmaller(fs, p, name, Subtree(fs, p));
        assert NamesIn(fs, p) - (unread - {name}) == NamesIn(fs, p) - unread + {name};
        entries, seen := ListEntry(p, prefix, name, out, entries, recursive, NamesIn(fs, p) - unread, seen);
        unread := unread - {name};
      }
      assert NamesIn(fs, p) - {} == NamesIn(fs, p);
      return Ok(entries), seen;
    }
  }

  // ---------------------------------------------------------------- listing

  datatype FileEntry = FileEntry(name: string, path: string, kind: Entry)

  /** An entry as the listing of `p` shows it: its path is relative to the listing's root. */
  function EntryAt(fs: FileSystem, p: Path, prefix: string, q: Path): FileEntry {
    FileEntry(if q == [] then "" else q[|q| - 1], prefix + PathText(q[Min(|p|, |q|)..]),
              if q in fs then fs[q] else Special)
  }

  function Described(fs: FileSystem, p: Path, prefix: string, seen: seq<Path>): seq<FileEntry> {
    if seen == [] then [] else Described(fs, p, prefix, seen[..|seen| - 1]) + [EntryAt(fs, p, prefix, seen[|seen| - 1])]
  }

  /** No entry comes twice, and none before the directory that holds it. */
  ghost predicate ParentsFirst(seen: seq<Path>) {
    forall i, j | 0 <= i < j < |seen| :: seen[i] != seen[j] && !(seen[j] < seen[i])
  }

  predicate IsListed(fs: FileSystem, p: Path, recursive: bool, names: set<string>, q: Path) {
    q in fs && p < q && q[|p|] in names && (recursive || Parent(q) == p)
  }

  /** `seen` holds each entry below the named children of `p` once, or only the children themselves, and every
      directory comes before what it holds. */
  ghost predicate AllListed(fs: FileSystem, p: Path, recursive: bool, names: set<string>, seen: seq<Path>) {
    ParentsFirst(seen) && forall q :: q in seen <==> IsListed(fs, p, recursive, names, q)
  }

  /** What the child and the listing below it come to. */
  ghost predicate ChildListed(fs: FileSystem, child: Path, recursive: bool, below: seq<Path>) {
    if recursive && child in fs && fs[child] == Directory then AllListed(fs, child, true, NamesIn(fs, child), below)
    else below == []
  }

  lemma EntryListed(fs: FileSystem, p: Path, recursive: bool, names: set<string>, seen: seq<Path>, name: string,
                    below: seq<Path>)
    requires WellFormed(fs) && p + [name] in fs && name !in names && AllListed(fs, p, recursive, names, seen)
    requires ChildListed(fs, p + [name], recursive, below)
    ensures AllListed(fs, p, recursive, names + {name}, seen + [p + [name]] + below)
    ensures forall q | q in below :: p + [name] < q
  {
    hide IsListed, ChildListed, ParentsFirst, WellFormed;
    var child := p + [name];
    forall q | q in below ensures p + [name] < q {
      ChildMembers(fs, p, recursive, name, below, q);
    }
    EntryMembers(fs, p, recursive, names, seen, name, below);
    ChildOrder(fs, child, recursive, below);
    SeenElsewhere(fs, p, recursive, names, seen, name);
    ChildrenOrdered(p, name, below);
    assert forall q | q in [child] + below :: child <= q;
    Appended(seen, [child] + below, p, name);
    Regroup(seen, [child], below);
  }

  lemma Regroup<T>(a: seq<T>, b: seq<T>, c: seq<T>)
    ensures a + b + c == a + (b + c)
  {
  }

  lemma EntryMembers(fs: FileSystem, p: Path, recursive: bool, names: set<string>, seen: seq<Path>, name: string,
                     below: seq<Path>)
    requires WellFormed(fs) && p + [name] in fs && AllListed(fs, p, recursive, names, seen)
    requires ChildListed(fs, p + [name], recursive, below)
    ensures forall q :: q in seen + [p + [name]] + below <==> IsListed(fs, p, recursive, names + {name}, q)
  {
    hide IsListed, ChildListed, WellFormed;
    forall q ensures q in seen + [p + [name]] + below <==> IsListed(fs, p, recursive, names + {name}, q) {
      ChildMembers(fs, p, recursive, name, below, q);
      ListedSplit(fs, p, recursive, names, name, q);
    }
  }

  lemma NothingListed(fs: FileSystem, p: Path, recursive: bool)
    ensures AllListed(fs, p, recursive, {}, [])
  {
  }

  lemma NothingDescribed(fs: FileSystem, p: Path, prefix: string)
    ensures Described(fs, p, prefix, []) == []
  {
  }

  lemma ChildOrder(fs: FileSystem, child: Path, recursive: bool, below: seq<Path>)
    requires ChildListed(fs, child, recursive, below)
    ensures ParentsFirst(below)
  {
  }

  lemma SeenElsewhere(fs: FileSystem, p: Path, recursive: bool, names: set<string>, seen: seq<Path>, name: string)
    requires AllListed(fs, p, recursive, names, seen) && name !in names
    ensures forall q | q in seen :: p < q && q[|p|] != name
  {
    forall q | q in seen ensures p < q && q[|p|] != name {
      assert IsListed(fs, p, recursive, names, q);
    }
  }

  lemma ListedSplit(fs: FileSystem, p: Path, recursive: bool, names: set<string>, name: string, q: Path)
    ensures IsListed(fs, p, recursive, names + {name}, q) <==>
            IsListed(fs, p, recursive, names, q) || IsListed(fs, p, recursive, {name}, q)
  {
  }

  lemma ChildMembers(fs: FileSystem, p: Path, recursive: bool, name: string, below: seq<Path>, q: Path)
    requires WellFormed(fs) && p + [name] in fs && ChildListed(fs, p + [name], recursive, below)
    ensures q == p + [name] || q in below <==> IsListed(fs, p, recursive, {name}, q)
    ensures q in below ==> p + [name] < q
    ensures below == [] || ParentsFirst(below)
  {
    BelowChild(fs, p, name, q);
  }

  lemma ChildrenOrdered(p: Path, name: string, below: seq<Path>)
    requires (forall q | q in below :: p + [name] < q) && ParentsFirst(below)
    ensures ParentsFirst([p + [name]] + below)
  {
    var all := [p + [name]] + below;
    forall i, j | 0 <= i < j < |all| ensures all[i] != all[j] && !(all[j] < all[i]) {
      assert all[j] == below[j - 1] && below[j - 1] in below;
      if i > 0 {
        assert all[i] == below[i - 1];
      }
    }
  }

  /** Listings of different children can follow each other. */
  lemma Appended(a: seq<Path>, b: seq<Path>, p: Path, name: string)
    requires ParentsFirst(a) && ParentsFirst(b)
    requires forall q | q in a :: p < q && q[|p|] != name
    requires forall q | q in b :: p + [name] <= q
    ensures ParentsFirst(a + b)
  {
    var all := a + b;
    forall i, j | 0 <= i < j < |all| ensures all[i] != all[j] && !(all[j] < all[i]) {
      if j < |a| {
        assert all[i] == a[i] && all[j] == a[j];
      } else if i >= |a| {
        assert all[i] == b[i - |a|] && all[j] == b[j - |a|];
      } else {
        assert all[i] in a && all[j] in b;
        assert all[j][|p|] == (p + [name])[|p|] == name;
      }
    }
  }

  /** What lies below a child: the child, and what lies below it when it is a directory. */
  lemma BelowChild(fs: FileSystem, p: Path, name: string, q: Path)
    requires WellFormed(fs) && p + [name] in fs
    ensures q in fs && p < q && q[|p|] == name <==> q in fs && p + [name] <= q
    ensures q in fs && p + [name] < q ==>
              fs[p + [name]] == Directory && q[|p| + 1] in NamesIn(fs, p + [name]) && Parent(q) != p
    ensures Parent(p + [name]) == p
  {
    if q in fs && p < q && q[|p|] == name {
      EntryOnTheWay(p, q);
    }
    if q in fs && p + [name] < q {
      BelowAnEntry(fs, p + [name], q);
      PrefixIsThere(fs, q, |p| + 1);
      EntryOnTheWay(p, q);
      assert |Parent(q)| > |p|;
    }
  }

  lemma {:induction false} DescribedAppend(fs: FileSystem, p: Path, prefix: string, a: seq<Path>, b: seq<Path>)
    ensures Described(fs, p, prefix, a + b) == Described(fs, p, prefix, a) + Described(fs, p, prefix, b)
  {
    if b == [] {
      assert a + b == a;
    } else {
      var init, last := b[..|b| - 1], b[|b| - 1];
      DescribedAppend(fs, p, prefix, a, init);
      assert (a + b)[..|a + b| - 1] == a + init && (a + b)[|a + b| - 1] == last;
    }
  }

  /** The listing of a subdirectory under the subdirectory's path is part of the listing of the directory. */
  lemma {:induction false} DescribedBelow(fs: FileSystem, p: Path, prefix: string, name: string, below: seq<Path>)
    requires forall q | q in below :: p + [name] < q
    ensures Described(fs, p + [name], prefix + "/" + name, below) == Described(fs, p, prefix, below)
  {
    if below != [] {
      var init, q := below[..|below| - 1], below[|below| - 1];
      assert q in below && forall l | l in init :: l in below;
      DescribedBelow(fs, p, prefix, name, init);
      DeeperPath(p, prefix, name, q);
    }
  }

  lemma DeeperPath(p: Path, prefix: string, name: string, q: Path)
    requires p + [name] < q
    ensures prefix + "/" + name + PathText(q[|p| + 1..]) == prefix + PathText(q[|p|..])
  {
    var rest := q[|p| + 1..];
    assert q[|p|..] == [name] + rest by { assert q[|p|] == (p + [name])[|p|]; }
    JoinConcat([name], rest);
  }

  lemma EntryDescribed(fs: FileSystem, p: Path, prefix: string, seen: seq<Path>, name: string, below: seq<Path>)
    requires p + [name] in fs && forall q | q in below :: p + [name] < q
    ensures Described(fs, p, prefix, seen + [p + [name]] + below) ==
            Described(fs, p, prefix, seen) + [FileEntry(name, prefix + "/" + name, fs[p + [name]])]
            + Described(fs, p + [name], prefix + "/" + name, below)
  {
    DescribedAppend(fs, p, prefix, seen + [p + [name]], below);
    DescribedAppend(fs, p, prefix, seen, [p + [name]]);
    DescribedBelow(fs, p, prefix, name, below);
    assert (p + [name])[|p|..] == [name];
    assert prefix + PathText([name]) == prefix + "/" + name;
    assert Described(fs, p, prefix, [p + [name]]) == [EntryAt(fs, p, prefix, p + [name])];
  }

  // ---------------------------------------------------------------- helpers

  lemma NothingBelow(fs: FileSystem, p: Path)
    requires WellFormed(fs) && p !in fs
    ensures Subtree(fs, p) == {} && Without(fs, p) == fs
  {
    forall q | q in fs ensures !(p <= q) {
      if p <= q {
        assert q[..|p|] == p;
        PrefixIsThere(fs, q, |p|);
      }
    }
    assert Subtree(fs, p) == {};
  }

  lemma EntryIsSmaller(fs: FileSystem, p: Path, name: string, all: set<Path>)
    requires p in fs && Subtree(fs, p) <= all
    ensures |Subtree(fs, p + [name])| < |all|
  {
    var less := all - {p};
    forall q | q in Subtree(fs, p + [name]) ensures q in less {
      assert p <= q && q != p;
    }
    SubsetSize(Subtree(fs, p + [name]), less);
  }

  /** Removing one entry leaves the rest of the directory, and nothing of what is outside it is lost. */
  lemma OneEntryLess(fs: FileSystem, p: Path, name: string)
    requires WellFormed(fs) && p in fs
    ensures var r := Without(fs, p + [name]);
            && p in r && NamesIn(r, p) == NamesIn(fs, p) - {name}
            && Without(r, p) == Without(fs, p) && Subtree(r, p) <= Subtree(fs, p)
  {
    var r := Without(fs, p + [name]);
    forall n ensures n in NamesIn(r, p) <==> n in NamesIn(fs, p) - {name} {
      NameIn(r, p, n);
      NameIn(fs, p, n);
      assert p + [name] <= p + [n] <==> n == name by {
        assert (p + [n])[|p|] == n && (p + [name])[|p|] == name;
      }
    }
    forall q ensures q in Without(r, p) <==> q in Without(fs, p) {
      assert p + [name] <= q ==> p <= q;
    }
  }

  lemma NoEntries(fs: FileSystem, p: Path)
    requires WellFormed(fs) && p in fs && fs[p] != Directory
    ensures NamesIn(fs, p) == {}
  {
    assert forall q | q in fs && q != [] :: Parent(q) != p;
  }

  lemma SubsetSize<T>(a: set<T>, b: set<T>)
    requires a <= b
    ensures |a| <= |b|
  {
    assert b == a + (b - a);
  }
}
