/** Paths as text and as lists of names (src/utils.cpp). */
module PathTexts {
  import opened Text
  import opened Paths

  /** The prefix the directory queries bind, without the closing '%'. */
  function DirPrefix(dir: string): (r: string)
    ensures r != "" && r[|r| - 1] == '/'
  {
    if dir == "" || dir == "/" then "/"
    else if dir[|dir| - 1] == '/' then dir
    else dir + "/"
  }

  /** A logical path: '/' and the components. */
  function PathText(parts: seq<string>): (r: string)
    ensures r != "" && r[0] == '/'
  {
    "/" + Join(parts, '/')
  }

  function DirText(parts: seq<string>): string {
    DirPrefix(PathText(parts))
  }

  lemma DirTextIs(parts: seq<string>)
    requires Names(parts)
    ensures DirText(parts) == if parts == [] then "/" else "/" + Join(parts, '/') + "/"
  {
    JoinNonEmpty(parts);
    if parts != [] {
      JoinEnds(parts);
    }
  }

  lemma JoinEnds(parts: seq<string>)
    requires Names(parts) && parts != []
    ensures var j := Join(parts, '/'); j != "" && j[|j| - 1] != '/'
  {
    var last := parts[|parts| - 1];
    assert last in parts;
    assert last[|last| - 1] in last;
  }

  lemma JoinSnoc(parts: seq<string>, name: string)
    requires parts != []
    ensures Join(parts + [name], '/') == Join(parts, '/') + "/" + name
  {
    assert (parts + [name])[..|parts|] == parts;
  }

  lemma {:induction false} JoinConcat(a: seq<string>, b: seq<string>)
    requires a != [] && b != []
    ensures Join(a + b, '/') == Join(a, '/') + "/" + Join(b, '/')
  {
    var init, last := b[..|b| - 1], b[|b| - 1];
    assert a + b == a + init + [last];
    JoinSnoc(a + init, last);
    if init == [] {
      assert a + init == a && b == [last];
    } else {
      JoinConcat(a, init);
      assert b == init + [last];
      JoinSnoc(init, last);
    }
  }

  /** A path text determines its components. */
  lemma PathTextInjective(a: seq<string>, b: seq<string>)
    requires Names(a) && (forall c | c in b :: '/' !in c) && b != [] && PathText(a) == PathText(b)
    ensures a == b || (a == [] && b == [""])
  {
    assert PathText(a)[1..] == Join(a, '/') && PathText(b)[1..] == Join(b, '/');
    JoinPieces(b, '/');
    if a == [] {
      assert Pieces("", '/') == [""];
    } else {
      JoinPieces(a, '/');
    }
  }

  /** The text prefix of the queries means: a proper descendant, or the root itself under the root. */
  lemma UnderIsDescendant(dir: seq<string>, path: seq<string>)
    requires Names(dir) && Names(path)
    ensures DirText(dir) <= PathText(path) <==> dir <= path && (dir == path ==> dir == [])
  {
    DirTextIs(dir);
    if dir == [] {
      assert "/" <= PathText(path);
    } else {
      hide DirText, PathText;
      if dir <= path && dir != path {
        DescendantIsUnder(dir, path);
      }
      if DirText(dir) <= PathText(path) {
        UnderMeansDescendant(dir, path);
      }
    }
  }

  lemma DescendantIsUnder(dir: seq<string>, path: seq<string>)
    requires Names(dir) && dir != [] && dir < path
    ensures DirText(dir) <= PathText(path)
  {
    DirTextIs(dir);
    var rest := path[|dir|..];
    assert path == dir + rest;
    JoinConcat(dir, rest);
    assert PathText(path) == DirText(dir) + Join(rest, '/');
  }

  lemma UnderMeansDescendant(dir: seq<string>, path: seq<string>)
    requires Names(dir) && Names(path) && dir != [] && DirText(dir) <= PathText(path)
    ensures dir < path
  {
    hide PathText, DirText, Join, Pieces;
    var rest := PathText(path)[|DirText(dir)|..];
    var pieces := Pieces(rest, '/');
    PiecesJoin(rest, '/');
    UnderText(dir, pieces);
    assert PathText(path) == DirText(dir) + rest;
    PathTextInjective(path, dir + pieces);
    assert dir <= dir + pieces && dir != dir + pieces;
  }

  lemma UnderText(dir: seq<string>, more: seq<string>)
    requires Names(dir) && dir != [] && more != []
    ensures PathText(dir + more) == DirText(dir) + Join(more, '/')
  {
    DirTextIs(dir);
    JoinConcat(dir, more);
  }
}
