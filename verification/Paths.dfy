/** Lexical normalisation of client paths (src/path_guard.cpp) and path text helpers (src/utils.cpp). */
module Paths {
  import opened Basics
  import opened Text

  const NUL: char := '\0'

  predicate Skipped(c: string) { c == "" || c == "." }

  predicate Illegal(c: string) { c == "~" || '\\' in c }

  /** A component that a normal form may hold. */
  predicate Clean(c: string) {
    && c != "" && c != "." && c != ".." && c != "~"
    && '\\' !in c && '/' !in c && NUL !in c
  }

  predicate NormalForm(parts: seq<string>) { forall c | c in parts :: Clean(c) }

  /** One more component after the open names. */
  function Enter(open: Result<seq<string>>, c: string): Result<seq<string>> {
    match open
    case Err(e) => Err(e)
    case Ok(names) =>
      if Skipped(c) then Ok(names)
      else if c == ".." then
        if names == [] then Err(Forbidden) else Ok(names[..|names| - 1])
      else if Illegal(c) then Err(Forbidden)
      else Ok(names + [c])
  }

  /** What a component list means: the names left open after every ".." has closed one. */
  function Meaning(parts: seq<string>): Result<seq<string>> {
    if parts == [] then Ok([])
    else
      Enter(Meaning(parts[..|parts| - 1]), parts[|parts| - 1])
  }

  function Normalize(logical: string): Result<string> {
    if NUL in logical then Err(Forbidden)
    else
      match Meaning(Pieces(logical, '/'))
      case Err(e) => Err(e)
      case Ok(open) => Ok(Join(open, '/'))
  }

  /** PathGuard::normalizeLogical. */
  method NormalizeLogical(logical: string) returns (r: Result<string>)
    ensures r == Normalize(logical)
  {
    if NUL in logical {
      return Err(Forbidden);
    }
    var parts := Split(logical, '/');
    var st: seq<string> := [];
    for i := 0 to |parts|
      invariant Meaning(parts[..i]) == Ok(st)
    {
      var c := parts[i];
      assert parts[..i + 1][..i] == parts[..i];
      if Skipped(c) {
        continue;
      }
      if c == ".." {
        if st == [] {
          MeaningErrPersists(parts, i + 1);
          return Err(Forbidden);
        }
        st := st[..|st| - 1];
        continue;
      }
      if Illegal(c) {
        MeaningErrPersists(parts, i + 1);
        return Err(Forbidden);
      }
      st := st + [c];
    }
    assert parts[..|parts|] == parts;
    if st == [] {
      return Ok("");
    }
    var out := WriteOut(st);
    return Ok(out);
  }

  /** The names with '/' between them. */
  method WriteOut(st: seq<string>) returns (out: string)
    ensures out == Join(st, '/')
  {
    out := "";
    for i := 0 to |st|
      invariant out == Join(st[..i], '/')
    {
      if i > 0 {
        out := out + ['/'];
      }
      assert st[..i + 1][..i] == st[..i];
      out := out + st[i];
    }
    assert st[..|st|] == st;
  }

  lemma {:induction false} MeaningErrPersists(parts: seq<string>, n: nat)
    requires n <= |parts| && Meaning(parts[..n]).Err?
    ensures Meaning(parts) == Err(Forbidden)
    decreases |parts|
  {
    MeaningErrCode(parts[..n]);
    if n < |parts| {
      assert parts[..|parts| - 1][..n] == parts[..n];
      MeaningErrPersists(parts[..|parts| - 1], n);
    } else {
      assert parts[..n] == parts;
    }
  }

  lemma {:induction false} MeaningErrCode(parts: seq<string>)
    ensures Meaning(parts).Err? ==> Meaning(parts) == Err(Forbidden)
  {
    if parts != [] {
      MeaningErrCode(parts[..|parts| - 1]);
    }
  }

  // ---------------------------------------------------------------- when it fails

  /** Names minus "..": how deep below the root a component list ends. */
  function Depth(parts: seq<string>): int {
    if parts == [] then 0
    else
      var c := parts[|parts| - 1];
      Depth(parts[..|parts| - 1]) + (if c == "" || c == "." then 0 else if c == ".." then -1 else 1)
  }

  ghost predicate NeverAboveRoot(parts: seq<string>) {
    forall n | 0 <= n <= |parts| :: Depth(parts[..n]) >= 0
  }

  lemma {:induction false} MeaningDefined(parts: seq<string>)
    ensures Meaning(parts).Ok? <==> NeverAboveRoot(parts) && forall c | c in parts :: c != "~" && '\\' !in c
    ensures Meaning(parts).Ok? ==> |Meaning(parts).value| == Depth(parts)
  {
    if parts == [] {
      assert NeverAboveRoot(parts);
    } else {
      var init := parts[..|parts| - 1];
      var c := parts[|parts| - 1];
      assert parts == init + [c];
      MeaningDefined(init);
      assert forall n | 0 <= n <= |init| :: init[..n] == parts[..n];
      assert parts[..|parts|] == parts;
      assert NeverAboveRoot(parts) <==> NeverAboveRoot(init) && Depth(parts) >= 0 by {
        if NeverAboveRoot(parts) {
          assert Depth(parts[..|parts|]) >= 0;
          assert forall n | 0 <= n <= |init| :: Depth(init[..n]) == Depth(parts[..n]);
        }
      }
      assert (forall d | d in parts :: !Illegal(d)) <==>
        (forall d | d in init :: !Illegal(d)) && !Illegal(c) by {
        assert c in parts && forall d | d in init :: d in parts;
      }
      assert c == ".." ==> !Illegal(c);
      assert Skipped(c) ==> !Illegal(c);
    }
  }

  /** A path is refused iff it holds a NUL, a '~' or backslash component, or climbs above the root. */
  lemma NormalizeFails(logical: string)
    ensures var parts := Pieces(logical, '/');
            Normalize(logical).Err? <==>
            NUL in logical || (exists c | c in parts :: c == "~" || '\\' in c) || !NeverAboveRoot(parts)
    ensures Normalize(logical).Err? ==> Normalize(logical) == Err(Forbidden)
  {
    MeaningDefined(Pieces(logical, '/'));
    MeaningErrCode(Pieces(logical, '/'));
  }

  // ---------------------------------------------------------------- what it returns

  lemma MeaningSnoc(parts: seq<string>, c: string)
    ensures Meaning(parts + [c]) == Enter(Meaning(parts), c)
  {
    assert (parts + [c])[..|parts|] == parts;
  }

  /** ".." takes back exactly the name before it. */
  lemma {:induction false} DotDotCancels(before: seq<string>, name: string, after: seq<string>)
    requires Clean(name)
    ensures Meaning(before + [name, ".."] + after) == Meaning(before + after)
  {
    if after == [] {
      MeaningSnoc(before, name);
      MeaningSnoc(before + [name], "..");
      assert before + [name, ".."] + after == before + [name] + [".."] && before + after == before;
    } else {
      var init, c := after[..|after| - 1], after[|after| - 1];
      DotDotCancels(before, name, init);
      MeaningSnoc(before + [name, ".."] + init, c);
      MeaningSnoc(before + init, c);
      assert before + [name, ".."] + after == before + [name, ".."] + init + [c];
      assert before + after == before + init + [c];
    }
  }

  lemma {:induction false} PieceChars(s: string, delim: char, bad: char)
    requires bad !in s
    ensures forall p | p in Pieces(s, delim) :: bad !in p
  {
    if s != "" {
      var last := |s| - 1;
      PieceChars(s[..last], delim, bad);
      var r := Pieces(s[..last], delim);
      assert s[last] in s;
      assert r[|r| - 1] in r;
    }
  }

  lemma {:induction false} MeaningClean(parts: seq<string>)
    requires forall c | c in parts :: '/' !in c && NUL !in c
    ensures Meaning(parts).Ok? ==> NormalForm(Meaning(parts).value)
  {
    if parts != [] {
      assert parts[|parts| - 1] in parts;
      assert forall c | c in parts[..|parts| - 1] :: c in parts;
      MeaningClean(parts[..|parts| - 1]);
    }
  }

  lemma {:induction false} NormalFormMeansItself(parts: seq<string>)
    requires NormalForm(parts)
    ensures Meaning(parts) == Ok(parts)
  {
    if parts != [] {
      var init := parts[..|parts| - 1];
      assert parts == init + [parts[|parts| - 1]] && parts[|parts| - 1] in parts;
      assert forall c | c in init :: c in parts;
      NormalFormMeansItself(init);
    }
  }

  /** The components of a normalised path: none for the root. */
  function Components(norm: string): seq<string> {
    if norm == "" then [] else Pieces(norm, '/')
  }

  /** Names a file system can hold. */
  predicate Names(parts: seq<string>) { forall c | c in parts :: c != "" && '/' !in c }

  lemma {:induction false} JoinNonEmpty(parts: seq<string>)
    requires Names(parts)
    ensures Join(parts, '/') == "" <==> parts == []
  {
    if parts != [] {
      assert parts[|parts| - 1] in parts;
    }
  }

  lemma ComponentsOfJoin(parts: seq<string>)
    requires NormalForm(parts)
    ensures Components(Join(parts, '/')) == parts
  {
    JoinNonEmpty(parts);
    if parts != [] {
      JoinPieces(parts, '/');
    }
  }

  /** The result splits back into exactly the meaning's names, all of them clean. */
  lemma NormalizeSplitsBack(logical: string)
    requires Normalize(logical).Ok?
    ensures Ok(Components(Normalize(logical).value)) == Meaning(Pieces(logical, '/'))
    ensures NormalForm(Components(Normalize(logical).value))
  {
    PiecesJoin(logical, '/');
    PieceChars(logical, '/', NUL);
    MeaningClean(Pieces(logical, '/'));
    ComponentsOfJoin(Meaning(Pieces(logical, '/')).value);
  }

  lemma {:induction false} JoinChars(parts: seq<string>, bad: char)
    requires bad != '/' && forall c | c in parts :: bad !in c
    ensures bad !in Join(parts, '/')
  {
    if parts != [] {
      assert parts[|parts| - 1] in parts;
      assert forall c | c in parts[..|parts| - 1] :: c in parts;
      JoinChars(parts[..|parts| - 1], bad);
    }
  }

  /** A normal form names itself. */
  lemma NormalizeJoin(parts: seq<string>)
    requires NormalForm(parts)
    ensures Normalize(Join(parts, '/')) == Ok(Join(parts, '/'))
  {
    JoinChars(parts, NUL);
    NormalFormMeansItself(parts);
    if parts == [] {
      assert Pieces("", '/')[..0] == [];
    } else {
      JoinPieces(parts, '/');
    }
  }

  lemma NormalizeIdempotent(logical: string)
    requires Normalize(logical).Ok?
    ensures Normalize(Normalize(logical).value) == Normalize(logical)
  {
    NormalizeSplitsBack(logical);
    NormalizeJoin(Components(Normalize(logical).value));
    PiecesJoin(Normalize(logical).value, '/');
  }
}
