/** Where objects and parts are kept (src/transfer.cpp, objectPathFor and beginUpload; include/config.h): different
    names are different files, so that files can be looked up by name. */
module StorePaths {
  import opened Text
  import opened Disk
  import opened Resolution

  /** The names a path leads through, when nothing on it is a link. */
  function Lexical(parts: seq<string>): seq<string> {
    if parts == [] then []
    else
      var before, c := Lexical(parts[..|parts| - 1]), parts[|parts| - 1];
      if c == "" || c == "." then before
      else if c == ".." then (if before == [] then [] else before[..|before| - 1])
      else before + [c]
  }

  function FileOf(text: string): seq<string> {
    Lexical(Pieces(text, '/'))
  }

  /** objectPathFor, for a text of at least two characters. */
  function ObjectText(storage: string, m: string): string
    requires |m| >= 2
  {
    JoinPath(JoinPath(storage + "/objects", m[..2]), m)
  }

  /** The part's path in beginUpload. */
  function PartText(storage: string, p: PartName): string {
    JoinPath(JoinPath(storage + "/tmp", p.username), p.md5 + "_" + p.base + ".part")
  }

  /** A text that can be a single name. */
  predicate Single(s: string) {
    s != "" && s != "." && s != ".." && '/' !in s
  }

  predicate Md5Text(m: string) {
    |m| == 32 && '/' !in m
  }

  predicate PartOk(p: PartName) {
    Single(p.username) && Md5Text(p.md5) && '/' !in p.base
  }

  lemma {:induction false} PiecesConcat(a: string, b: string, d: char)
    ensures Pieces(a + [d] + b, d) == Pieces(a, d) + Pieces(b, d)
  {
    hide Pieces, Longer;
    if b == "" {
      NothingAfter(a, d);
      assert a + [d] + b == a + [d];
    } else {
      var init, last := b[..|b| - 1], b[|b| - 1];
      PiecesConcat(a, init, d);
      OneMorePiece(Pieces(a, d), Pieces(init, d), last, d);
      PiecesSnoc(a + [d] + init, last, d);
      PiecesSnoc(init, last, d);
      assert init + [last] == b && a + [d] + init + [last] == a + [d] + b;
    }
  }

  lemma NothingAfter(a: string, d: char)
    ensures Pieces(a + [d], d) == Pieces(a, d) + Pieces("", d)
  {
    PiecesSnoc(a, d, d);
  }

  /** Cutting a text that is one character longer. */
  function Longer(pieces: seq<string>, c: char, d: char): seq<string>
    requires pieces != []
  {
    if c == d then pieces + [""] else pieces[..|pieces| - 1] + [pieces[|pieces| - 1] + [c]]
  }

  lemma PiecesSnoc(s: string, c: char, d: char)
    ensures Pieces(s + [c], d) == Longer(Pieces(s, d), c, d)
  {
    assert (s + [c])[..|s|] == s;
  }

  lemma OneMorePiece(a: seq<string>, b: seq<string>, c: char, d: char)
    requires b != []
    ensures Longer(a + b, c, d) == a + Longer(b, c, d)
  {
    assert (a + b)[..|a + b| - 1] == a + b[..|b| - 1];
  }

  lemma {:induction false} OnePiece(s: string, d: char)
    requires d !in s
    ensures Pieces(s, d) == [s]
  {
    if s != "" {
      var init, last := s[..|s| - 1], s[|s| - 1];
      assert s == init + [last];
      OnePiece(init, d);
    }
  }

  lemma LexicalSnoc(parts: seq<string>, c: string)
    ensures Lexical(parts + [c]) ==
              if c == "" || c == "." then Lexical(parts)
              else if c == ".." then (if Lexical(parts) == [] then [] else Lexical(parts)[..|Lexical(parts)| - 1])
              else Lexical(parts) + [c]
  {
    assert (parts + [c])[..|parts|] == parts;
  }

  /** One more name at the end of a path. */
  lemma FileBelow(a: string, name: string)
    requires '/' !in name
    ensures FileOf(a + "/" + name) ==
              if name == "" || name == "." then FileOf(a)
              else if name == ".." then (if FileOf(a) == [] then [] else FileOf(a)[..|FileOf(a)| - 1])
              else FileOf(a) + [name]
  {
    PiecesConcat(a, name, '/');
    OnePiece(name, '/');
    LexicalSnoc(Pieces(a, '/'), name);
  }

  lemma JoinPlain(a: string, b: string)
    requires a != "" && a[|a| - 1] != '/' && b != "" && '/' !in b
    ensures JoinPath(a, b) == a + "/" + b
  {
    assert b[0] in b;
  }

  /** The last name of an object's path is its md5. */
  lemma ObjectFile(storage: string, m: string)
    requires Md5Text(m)
    ensures var f := FileOf(ObjectText(storage, m)); f != [] && f[|f| - 1] == m
  {
    hide FileOf, ObjectText;
    ObjectTextIs(storage, m);
    FileBelow(storage + "/" + "objects" + "/" + m[..2], m);
  }

  lemma PartFile(storage: string, p: PartName)
    requires PartOk(p)
    ensures var name := p.md5 + "_" + p.base + ".part";
            FileOf(PartText(storage, p)) == FileOf(storage + "/tmp") + [p.username, name]
  {
    var dir, name := storage + "/tmp", p.md5 + "_" + p.base + ".part";
    assert dir[|dir| - 1] == 'p' && '/' !in name && |name| > 32;
    JoinPlain(dir, p.username);
    FileBelow(dir, p.username);
    var sub := dir + "/" + p.username;
    assert sub[|sub| - 1] in p.username;
    JoinPlain(sub, name);
    FileBelow(sub, name);
    assert FileOf(dir) + [p.username] + [name] == FileOf(dir) + [p.username, name];
  }

  /** Different objects, different parts, and objects and parts are different files, whatever the storage root. */
  lemma FilesApart(storage: string, m: string, n: string, p: PartName, q: PartName)
    requires Md5Text(m) && Md5Text(n) && PartOk(p) && PartOk(q)
    ensures FileOf(ObjectText(storage, m)) == FileOf(ObjectText(storage, n)) <==> m == n
    ensures FileOf(PartText(storage, p)) == FileOf(PartText(storage, q)) <==> p == q
    ensures FileOf(ObjectText(storage, m)) != FileOf(PartText(storage, p))
  {
    hide FileOf, ObjectText, PartText;
    ObjectFile(storage, m);
    ObjectFile(storage, n);
    PartFile(storage, p);
    PartFile(storage, q);
    if FileOf(PartText(storage, p)) == FileOf(PartText(storage, q)) {
      SamePartName(FileOf(storage + "/tmp"), p, q);
    }
  }

  lemma SamePartName(dir: seq<string>, p: PartName, q: PartName)
    requires PartOk(p) && PartOk(q)
    requires dir + [p.username, p.md5 + "_" + p.base + ".part"] == dir + [q.username, q.md5 + "_" + q.base + ".part"]
    ensures p == q
  {
    var a, b := p.md5 + "_" + p.base + ".part", q.md5 + "_" + q.base + ".part";
    var f, g := dir + [p.username, a], dir + [q.username, b];
    assert f[|dir|] == p.username && g[|dir|] == q.username && f[|dir| + 1] == a && g[|dir| + 1] == b;
    assert a[..32] == p.md5 && b[..32] == q.md5;
    assert a[33..|a| - 5] == p.base && b[33..|b| - 5] == q.base;
  }

  /** Where the object of a text without '/' is kept. */
  lemma ObjectPlace(storage: string, m: string)
    requires Md5Text(m)
    ensures FileOf(ObjectText(storage, m)) ==
              if m[..2] == ".." then FileOf(storage) + [m] else FileOf(storage) + ["objects", m[..2], m]
  {
    hide FileOf, ObjectText;
    ObjectTextIs(storage, m);
    FileBelow(storage, "objects");
    FileBelow(storage + "/" + "objects", m[..2]);
    FileBelow(storage + "/" + "objects" + "/" + m[..2], m);
    var f := FileOf(storage);
    assert (f + ["objects"])[..|f|] == f;
    assert f + ["objects"] + [m[..2]] + [m] == f + ["objects", m[..2], m];
  }

  lemma ObjectTextIs(storage: string, m: string)
    requires Md5Text(m)
    ensures ObjectText(storage, m) == storage + "/" + "objects" + "/" + m[..2] + "/" + m
    ensures '/' !in m[..2] && m[..2] != "" && m[..2] != "."
  {
    var dir := storage + "/objects";
    assert dir == storage + "/" + "objects" && dir[|dir| - 1] == 's' && m[1] in m[..2];
    assert forall c | c in m[..2] :: c in m;
    JoinPlain(dir, m[..2]);
    var sub := dir + "/" + m[..2];
    assert sub[|sub| - 1] == m[1];
    JoinPlain(sub, m);
  }

  /** It lies in the object root if and only if the text does not begin with "..". */
  lemma ObjectInRoot(storage: string, m: string)
    requires Md5Text(m)
    ensures FileOf(storage + "/objects") <= FileOf(ObjectText(storage, m)) <==> m[..2] != ".."
  {
    hide FileOf, ObjectText;
    ObjectPlace(storage, m);
    assert storage + "/objects" == storage + "/" + "objects";
    FileBelow(storage, "objects");
    var f := FileOf(storage);
    assert (f + [m])[|f|] == m && (f + ["objects"])[|f|] == "objects";
    assert f + ["objects", m[..2], m] == f + ["objects"] + [m[..2], m];
  }

  /** The source checks an md5's length only: a text that begins with ".." names a file beside the object root. */
  lemma DotsLeaveTheRoot(storage: string, tail: string)
    requires |tail| == 30 && '/' !in tail
    ensures var m := ".." + tail;
            && Md5Text(m) && FileOf(ObjectText(storage, m)) == FileOf(storage) + [m]
            && !(FileOf(storage + "/objects") <= FileOf(ObjectText(storage, m)))
  {
    hide FileOf, ObjectText;
    assert (".." + tail)[..2] == "..";
    ObjectPlace(storage, ".." + tail);
    ObjectInRoot(storage, ".." + tail);
  }

  /** The source checks an md5's length only. With '/' in it, two different texts of 32 characters can be one file. */
  lemma SlashesCollide(storage: string, username: string, tail: string, base: string)
    requires |tail| == 30 && '/' !in tail && Single(username) && '/' !in base
    ensures var m, n := "//" + tail, "./" + tail;
            |m| == |n| == 32 && m != n && FileOf(ObjectText(storage, m)) == FileOf(ObjectText(storage, n))
    ensures var p, q := PartName(username, "//" + tail, "_" + base), PartName(username, "/" + tail + "_", base);
            |p.md5| == |q.md5| == 32 && p != q && FileOf(PartText(storage, p)) == FileOf(PartText(storage, q))
  {
    hide FileOf, ObjectText, PartText;
    ObjectsCollide(storage, tail);
    PartsCollide(storage, username, tail, base);
    assert ("//" + tail)[0] != ("./" + tail)[0];
    assert ("//" + tail)[1] == '/' && ("/" + tail + "_")[1] in tail;
  }

  lemma ObjectsCollide(storage: string, tail: string)
    requires |tail| == 30 && '/' !in tail
    ensures FileOf(ObjectText(storage, "//" + tail)) == FileOf(ObjectText(storage, "./" + tail))
  {
    var dir, m, n := storage + "/objects", "//" + tail, "./" + tail;
    assert m[..2] == "//" && n[..2] == "./" && m[1..] == "/" + tail && dir[|dir| - 1] == 's';
    assert ObjectText(storage, m) == dir + "/" + "" + "/" + "" + "/" + tail;
    assert ObjectText(storage, n) == dir + "/" + "." + "/" + "." + "/" + tail;
    FileBelow(dir, "");
    FileBelow(dir + "/" + "", "");
    FileBelow(dir + "/" + "" + "/" + "", tail);
    FileBelow(dir, ".");
    FileBelow(dir + "/" + ".", ".");
    FileBelow(dir + "/" + "." + "/" + ".", tail);
  }

  lemma PartsCollide(storage: string, username: string, tail: string, base: string)
    requires |tail| == 30 && '/' !in tail && Single(username) && '/' !in base
    ensures FileOf(PartText(storage, PartName(username, "//" + tail, "_" + base))) ==
            FileOf(PartText(storage, PartName(username, "/" + tail + "_", base)))
  {
    var dir, name := storage + "/tmp", tail + "__" + base + ".part";
    assert dir[|dir| - 1] == 'p';
    JoinPlain(dir, username);
    var sub := dir + "/" + username;
    assert sub[|sub| - 1] in username;
    assert "//" + tail + "_" + ("_" + base) + ".part" == "//" + name;
    assert "/" + tail + "_" + "_" + base + ".part" == "/" + name;
    assert sub + ("//" + name) == sub + "/" + "" + "/" + name;
    assert sub + ("/" + name) == sub + "/" + name;
    FileBelow(sub, "");
    FileBelow(sub + "/" + "", name);
    FileBelow(sub, name);
  }
}
