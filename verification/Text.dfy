/** Strings cut at a delimiter, and decimal numerals (src/utils.cpp, std::to_string, std::stoull). */
module Text {
  // ---------------------------------------------------------------- split and join

  /** The pieces of `s` between delimiters; one piece more than there are delimiters. */
  function Pieces(s: string, delim: char): (r: seq<string>)
    ensures |r| > 0
  {
    if s == "" then [""]
    else
      var last := |s| - 1;
      var r := Pieces(s[..last], delim);
      if s[last] == delim then r + [""] else r[..|r| - 1] + [r[|r| - 1] + [s[last]]]
  }

  /** The pieces written out again with one delimiter between neighbours. */
  function Join(parts: seq<string>, delim: char): string {
    if parts == [] then ""
    else if |parts| == 1 then parts[0]
    else Join(parts[..|parts| - 1], delim) + [delim] + parts[|parts| - 1]
  }

  method Split(s: string, delim: char) returns (out: seq<string>)
    ensures out == Pieces(s, delim)
    ensures Join(out, delim) == s
    ensures forall p | p in out :: delim !in p
  {
    out := [];
    var cur := "";
    for i := 0 to |s|
      invariant out + [cur] == Pieces(s[..i], delim)
    {
      assert s[..i + 1][..i] == s[..i];
      if s[i] == delim {
        out := out + [cur];
        cur := "";
      } else {
        cur := cur + [s[i]];
      }
    }
    out := out + [cur];
    assert s[..|s|] == s;
    PiecesJoin(s, delim);
  }

  /** Cutting loses nothing, and no piece holds the delimiter. */
  lemma {:induction false} PiecesJoin(s: string, delim: char)
    ensures Join(Pieces(s, delim), delim) == s
    ensures forall p | p in Pieces(s, delim) :: delim !in p
  {
    if s != "" {
      var last := |s| - 1;
      var r := Pieces(s[..last], delim);
      PiecesJoin(s[..last], delim);
      if s[last] == delim {
        assert (r + [""])[..|r|] == r;
      } else {
        var q := r[..|r| - 1] + [r[|r| - 1] + [s[last]]];
        assert q[..|q| - 1] == r[..|r| - 1];
        assert r == r[..|r| - 1] + [r[|r| - 1]];
      }
      assert s == s[..last] + [s[last]];
    }
  }

  /** Pieces free of the delimiter come back unchanged when they are joined and cut again. */
  lemma {:induction false} JoinPieces(parts: seq<string>, delim: char)
    requires parts != []
    requires forall p | p in parts :: delim !in p
    ensures Pieces(Join(parts, delim), delim) == parts
  {
    var init, last := parts[..|parts| - 1], parts[|parts| - 1];
    assert parts == init + [last] && last in parts;
    if init == [] {
      PiecesAppend("", last, delim);
      assert "" + last == last;
    } else {
      forall p | p in init ensures delim !in p { assert p in parts; }
      JoinPieces(init, delim);
      PiecesMark(Join(init, delim), delim);
      PiecesAppend(Join(init, delim) + [delim], last, delim);
      assert (init + [""])[..|init|] == init;
    }
  }

  /** A delimiter opens a new, empty piece. */
  lemma PiecesMark(s: string, delim: char)
    ensures Pieces(s + [delim], delim) == Pieces(s, delim) + [""]
  {
    assert (s + [delim])[..|s|] == s;
  }

  function LengthenLast(r: seq<string>, t: string): seq<string>
    requires r != []
  {
    r[..|r| - 1] + [r[|r| - 1] + t]
  }

  lemma PiecesSnoc(s: string, c: char, delim: char)
    requires c != delim
    ensures Pieces(s + [c], delim) == LengthenLast(Pieces(s, delim), [c])
  {
    assert (s + [c])[..|s|] == s;
  }

  lemma LengthenTwice(r: seq<string>, t: string, u: string)
    requires r != []
    ensures LengthenLast(LengthenLast(r, t), u) == LengthenLast(r, t + u)
  {
    var last := r[|r| - 1];
    assert last + t + u == last + (t + u);
  }

  /** Text without a delimiter only lengthens the last piece. */
  lemma {:induction false} PiecesAppend(s: string, t: string, delim: char)
    requires delim !in t
    ensures Pieces(s + t, delim) == LengthenLast(Pieces(s, delim), t)
  {
    if t == "" {
      var p := Pieces(s, delim);
      assert s + t == s && p[|p| - 1] + t == p[|p| - 1];
    } else {
      var u, c := t[..|t| - 1], t[|t| - 1];
      assert t == u + [c] && c in t && s + t == s + u + [c];
      hide Pieces, LengthenLast;
      PiecesAppend(s, u, delim);
      PiecesSnoc(s + u, c, delim);
      LengthenTwice(Pieces(s, delim), u, [c]);
    }
  }

  /** The position after the last `c`, 0 when there is none. */
  function AfterLast(s: string, c: char): (i: nat)
    ensures i <= |s| && (i > 0 ==> s[i - 1] == c)
    ensures forall k | i <= k < |s| :: s[k] != c
  {
    if s == "" then 0 else if s[|s| - 1] == c then |s| else AfterLast(s[..|s| - 1], c)
  }

  /** baseName: the text after the last '/', all of it when there is none. */
  function BaseName(path: string): (r: string)
    ensures '/' !in r
  {
    path[AfterLast(path, '/')..]
  }

  /** It is what follows the last '/', and the whole text when there is none. */
  lemma BaseNameIs(dir: string, name: string)
    requires '/' !in name
    ensures BaseName(dir + "/" + name) == name && BaseName(name) == name
  {
    var path := dir + "/" + name;
    var i := AfterLast(path, '/');
    assert path[|dir|] == '/' && i > |dir|;
    assert path[|dir| + 1..] == name;
    forall k | |dir| < k < |path| ensures path[k] != '/' {
      assert path[k] == name[k - |dir| - 1] && name[k - |dir| - 1] in name;
    }
  }

  // ---------------------------------------------------------------- decimal numerals

  predicate IsDigit(c: char) { '0' <= c <= '9' }

  function Digit(d: int): (c: char)
    requires 0 <= d < 10
    ensures IsDigit(c)
  {
    '0' + d as char
  }

  /** std::to_string of an unsigned number. */
  function Decimal(n: nat): (s: string)
    ensures s != "" && forall c | c in s :: IsDigit(c)
  {
    if n < 10 then [Digit(n)] else Decimal(n / 10) + [Digit(n % 10)]
  }

  /** std::to_string of a signed number. */
  function SignedDecimal(n: int): (s: string)
    ensures s != "" && forall c | c in s :: IsDigit(c) || c == '-'
  {
    if n < 0 then "-" + Decimal(-n) else Decimal(n)
  }

  /** std::stoull of a text of digits. */
  function Number(s: string): nat
    requires forall c | c in s :: IsDigit(c)
  {
    if s == "" then 0
    else
      assert IsDigit(s[|s| - 1]);
      10 * Number(s[..|s| - 1]) + (s[|s| - 1] as int - '0' as int)
  }

  lemma {:induction false} NumberDecimal(n: nat)
    ensures Number(Decimal(n)) == n
  {
    var s := Decimal(n);
    if n < 10 {
      assert s[..|s| - 1] == "";
    } else {
      NumberDecimal(n / 10);
      assert s[..|s| - 1] == Decimal(n / 10);
    }
  }

  lemma SignedDecimalInjective(a: int, b: int)
    requires SignedDecimal(a) == SignedDecimal(b)
    ensures a == b
  {
    var s := SignedDecimal(a);
    MinusSign(a);
    MinusSign(b);
    if a < 0 {
      assert s[1..] == Decimal(-a) && s[1..] == Decimal(-b);
      NumberDecimal(-a);
      NumberDecimal(-b);
    } else {
      NumberDecimal(a);
      NumberDecimal(b);
    }
  }

  lemma MinusSign(n: int)
    ensures n < 0 <==> SignedDecimal(n)[0] == '-'
  {
    if n >= 0 {
      assert Decimal(n)[0] in Decimal(n);
    }
  }

  // ---------------------------------------------------------------- marks

  /** std::string::find of one character, |s| standing for npos. */
  function Find(s: string, mark: char): (r: nat)
    ensures r <= |s| && mark !in s[..r]
    ensures r < |s| ==> s[r] == mark
  {
    if s == "" || s[0] == mark then 0 else 1 + Find(s[1..], mark)
  }

  /** Two texts cut at the same mark, a mark neither head holds, have equal halves. */
  lemma CutAtMark(a: string, b: string, c: string, d: string, mark: char)
    requires mark !in a && mark !in c
    requires a + [mark] + b == c + [mark] + d
    ensures a == c && b == d
  {
    FindMark(a, b, mark);
    FindMark(c, d, mark);
    var l, r := a + [mark] + b, c + [mark] + d;
    assert l[..|a|] == a && r[..|c|] == c;
    assert l[|a| + 1..] == b && r[|c| + 1..] == d;
  }

  lemma {:induction false} FindMark(a: string, b: string, mark: char)
    requires mark !in a
    ensures Find(a + [mark] + b, mark) == |a|
  {
    if a != "" {
      FindMark(a[1..], b, mark);
      assert (a + [mark] + b)[1..] == a[1..] + [mark] + b;
    }
  }
}
