/** The SQL LIKE operator as the directory queries use it (src/transfer.cpp). */
module Like {

  /** `s LIKE pattern`, with '\' as the escape character. */
  predicate Matches(pattern: string, s: string)
    decreases |pattern| + |s|
  {
    if pattern == "" then s == ""
    else if pattern[0] == '%' then
      Matches(pattern[1..], s) || (s != "" && Matches(pattern, s[1..]))
    else if s == "" then false
    else if pattern[0] == '_' then Matches(pattern[1..], s[1..])
    else if pattern[0] == '\\' && |pattern| > 1 then
      s[0] == pattern[1] && Matches(pattern[2..], s[1..])
    else s[0] == pattern[0] && Matches(pattern[1..], s[1..])
  }

  /** What a pattern means: '%' stands for any text, '_' for any character, '\\' for the character after it, and
      everything else for itself. */
  lemma PatternMeans(pattern: string, s: string)
    ensures Matches("", s) <==> s == ""
    ensures Matches("%" + pattern, s) <==> exists n: nat | n <= |s| :: Matches(pattern, s[n..])
    ensures Matches("_" + pattern, s) <==> s != "" && Matches(pattern, s[1..])
    ensures pattern != "" ==>
              (Matches("\\" + pattern, s) <==> s != "" && s[0] == pattern[0] && Matches(pattern[1..], s[1..]))
    ensures forall c | c != '%' && c != '_' && c != '\\' ::
              Matches([c] + pattern, s) <==> s != "" && s[0] == c && Matches(pattern, s[1..])
  {
    PercentMeans(pattern, s);
    assert ("_" + pattern)[1..] == pattern;
    assert pattern != "" ==> ("\\" + pattern)[1] == pattern[0] && ("\\" + pattern)[2..] == pattern[1..];
    forall c | c != '%' && c != '_' && c != '\\'
      ensures Matches([c] + pattern, s) <==> s != "" && s[0] == c && Matches(pattern, s[1..])
    {
      assert ([c] + pattern)[1..] == pattern;
    }
  }

  lemma {:induction false} PercentMeans(pattern: string, s: string)
    ensures Matches("%" + pattern, s) <==> exists n: nat | n <= |s| :: Matches(pattern, s[n..])
    decreases |s|
  {
    assert ("%" + pattern)[1..] == pattern && s[0..] == s;
    if s != "" {
      PercentMeans(pattern, s[1..]);
      if Matches("%" + pattern, s[1..]) {
        var n: nat :| n <= |s[1..]| && Matches(pattern, s[1..][n..]);
        assert s[1..][n..] == s[n + 1..];
      }
      if exists n: nat :: 0 < n <= |s| && Matches(pattern, s[n..]) {
        var n: nat :| 0 < n <= |s| && Matches(pattern, s[n..]);
        assert s[1..][n - 1..] == s[n..];
      }
    }
  }

  /** "prefix%" accepts every text that starts with the prefix, even when the prefix holds wildcards. */
  lemma {:induction false} PrefixMatches(prefix: string, s: string)
    requires '\\' !in prefix && prefix <= s
    ensures Matches(prefix + "%", s)
  {
    var pattern := prefix + "%";
    if prefix == "" {
      assert pattern == "%";
      AnythingMatches(s);
    } else {
      assert pattern[1..] == prefix[1..] + "%";
      PrefixMatches(prefix[1..], s[1..]);
      if prefix[0] == '%' {
        assert s[0] == '%';
        assert Matches(pattern, s[1..]) by { PercentAbsorbs(pattern, s[1..]); }
      }
    }
  }

  lemma {:induction false} AnythingMatches(s: string)
    ensures Matches("%", s)
  {
    if s != "" {
      AnythingMatches(s[1..]);
    }
  }

  lemma PercentAbsorbs(pattern: string, s: string)
    requires pattern != "" && pattern[0] == '%' && Matches(pattern[1..], s)
    ensures Matches(pattern, s)
  {
  }

  /** A prefix without wildcards accepts nothing else. */
  lemma {:induction false} PlainPrefixMatches(prefix: string, s: string)
    requires '\\' !in prefix && '%' !in prefix && '_' !in prefix
    ensures Matches(prefix + "%", s) <==> prefix <= s
  {
    if prefix == "" {
      assert prefix + "%" == "%";
      AnythingMatches(s);
    } else {
      assert (prefix + "%")[1..] == prefix[1..] + "%";
      assert prefix[0] in prefix;
      if s != "" {
        PlainPrefixMatches(prefix[1..], s[1..]);
        assert prefix <= s <==> prefix[0] == s[0] && prefix[1..] <= s[1..] by {
          assert prefix == [prefix[0]] + prefix[1..] && s == [s[0]] + s[1..];
        }
      }
    }
  }
}
