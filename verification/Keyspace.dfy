/** The flat Redis keyspace (src/redis_store.cpp): string keys and members, and the typed maps they stand for. */
module Keyspace {
  import opened Basics
  import opened Text
  import opened Store

  // ---------------------------------------------------------------- keys and members

  datatype RedisKey =
    | SessionKey(token: Token)
    | ObjectKey(md5: Md5)
    | SizeKey(md5: Md5)
    | RefsKey(md5: Md5)
    | PathKey(key: Key)
    | ChallengeKey(token: Token, md5: Md5)

  function Family(k: RedisKey): (f: string)
    ensures ':' !in f
  {
    match k
    case SessionKey(_) => "session"
    case ObjectKey(_) => "obj"
    case SizeKey(_) => "objsize"
    case RefsKey(_) => "refs"
    case PathKey(_) => "path"
    case ChallengeKey(_, _) => "chal"
  }

  function Detail(k: RedisKey): string {
    match k
    case SessionKey(token) => token
    case ObjectKey(m) => m
    case SizeKey(m) => m
    case RefsKey(m) => m
    case PathKey(key) => SignedDecimal(key.user) + ":" + key.path
    case ChallengeKey(token, m) => token + ":" + m
  }

  function Encode(k: RedisKey): string {
    "cs:" + (Family(k) + ":" + Detail(k))
  }

  /** Families are disjoint and every encoder is injective: no two typed keys share a Redis key. */
  lemma EncodeInjective(a: RedisKey, b: RedisKey)
    requires Encode(a) == Encode(b)
    ensures a == b
  {
    assert Encode(a)[3..] == Family(a) + ":" + Detail(a) && Encode(b)[3..] == Family(b) + ":" + Detail(b);
    CutAtMark(Family(a), Detail(a), Family(b), Detail(b), ':');
    if a.PathKey? {
      CutAtMark(SignedDecimal(a.key.user), a.key.path, SignedDecimal(b.key.user), b.key.path, ':');
      SignedDecimalInjective(a.key.user, b.key.user);
    } else if a.ChallengeKey? {
      CutAtMark(a.token, a.md5, b.token, b.md5, ':');
    }
  }

  /** A member of a reference set. */
  function Member(k: Key): string {
    SignedDecimal(k.user) + "|" + k.path
  }

  lemma MemberInjective(a: Key, b: Key)
    requires Member(a) == Member(b)
    ensures a == b
  {
    CutAtMark(SignedDecimal(a.user), a.path, SignedDecimal(b.user), b.path, '|');
    SignedDecimalInjective(a.user, b.user);
  }

  function Members(ks: set<Key>): set<string> {
    set k | k in ks :: Member(k)
  }

  lemma MemberIn(ks: set<Key>, k: Key)
    ensures Member(k) in Members(ks) <==> k in ks
  {
    if Member(k) in Members(ks) {
      var l :| l in ks && Member(l) == Member(k);
      MemberInjective(k, l);
    }
  }

  lemma MembersAdd(ks: set<Key>, k: Key)
    ensures Members(ks + {k}) == Members(ks) + {Member(k)}
  {
    forall t ensures t in Members(ks + {k}) <==> t in Members(ks) + {Member(k)} {
      if t in Members(ks) {
        var l :| l in ks && Member(l) == t;
        assert l in ks + {k};
      }
      assert k in ks + {k};
    }
  }

  lemma MembersRemove(ks: set<Key>, k: Key)
    ensures Members(ks - {k}) == Members(ks) - {Member(k)}
  {
    MemberIn(ks - {k}, k);
    forall t ensures t in Members(ks - {k}) <==> t in Members(ks) - {Member(k)} {
      if t in Members(ks) && t != Member(k) {
        var l :| l in ks && Member(l) == t;
        assert l in ks - {k};
      }
    }
  }

  /** SCARD counts keys. */
  lemma {:induction false} MembersCount(ks: set<Key>)
    ensures |Members(ks)| == |ks|
    decreases ks
  {
    if ks == {} {
      assert Members(ks) == {};
    } else {
      var k :| k in ks;
      MembersRemove(ks, k);
      MembersCount(ks - {k});
      MemberIn(ks, k);
    }
  }

  // ---------------------------------------------------------------- challenges as text

  function PrintChallenge(c: Challenge): string {
    Decimal(c.offset) + ":" + Decimal(c.len)
  }

  function LeadingDigits(s: string): (d: string)
    ensures d <= s && forall c | c in d :: IsDigit(c)
  {
    if s == "" || !IsDigit(s[0]) then "" else [s[0]] + LeadingDigits(s[1..])
  }

  /** std::stoull, which throws when there is no number or it does not fit. */
  function Stoull(s: string): Option<U64> {
    var d := LeadingDigits(s);
    if d == "" || Number(d) >= TWO_TO_THE_64 then None else Some(Number(d))
  }

  /** The parsing in getChallenge: Ok(None) stands for "no challenge", an error for the exception. */
  function ParseChallenge(s: string): Result<Option<Challenge>> {
    var pos := Find(s, ':');
    if pos == |s| then Ok(None)
    else
      var offset, len := Stoull(s[..pos]), Stoull(s[pos + 1..]);
      if offset.None? || len.None? then Err(Internal)
      else Ok(Some(Challenge(offset.value, len.value % TWO_TO_THE_32)))
  }

  lemma {:induction false} AllDigits(s: string)
    requires forall c | c in s :: IsDigit(c)
    ensures LeadingDigits(s) == s
  {
    if s != "" {
      assert s[0] in s;
      AllDigits(s[1..]);
    }
  }

  lemma StoullDecimal(n: U64)
    ensures Stoull(Decimal(n)) == Some(n)
  {
    AllDigits(Decimal(n));
    NumberDecimal(n);
  }

  /** Every challenge comes back from its text, for all 64-bit offsets and 32-bit lengths. */
  lemma ParseOfPrint(c: Challenge)
    ensures ParseChallenge(PrintChallenge(c)) == Ok(Some(c))
  {
    var s := PrintChallenge(c);
    assert ':' !in Decimal(c.offset);
    FindMark(Decimal(c.offset), Decimal(c.len), ':');
    assert s[..|Decimal(c.offset)|] == Decimal(c.offset) && s[|Decimal(c.offset)| + 1..] == Decimal(c.len);
    StoullDecimal(c.offset);
    StoullDecimal(c.len);
  }

  // ---------------------------------------------------------------- the typed view

  datatype Typed = Typed(
    sessions: map<Token, string>,
    objects: map<Md5, string>,
    sizes: map<Md5, nat>,
    refs: map<Md5, set<Key>>,
    paths: map<Key, Md5>,
    chals: map<(Token, Md5), Challenge>)

  function TypedRefs(t: Typed, m: Md5): set<Key> {
    if m in t.refs then t.refs[m] else {}
  }

  /** What one key of the flat keyspace holds: a string or a set. */
  datatype Item = Text(text: string) | Bag(members: set<string>)

  /** What the typed maps put under a key. Redis drops a set with its last member, so an empty set is no key. */
  function Entry(t: Typed, k: RedisKey): Option<Item> {
    match k
    case SessionKey(token) => if token in t.sessions then Some(Text(t.sessions[token])) else None
    case ObjectKey(m) => if m in t.objects then Some(Text(t.objects[m])) else None
    case SizeKey(m) => if m in t.sizes then Some(Text(Decimal(t.sizes[m]))) else None
    case RefsKey(m) => if TypedRefs(t, m) != {} then Some(Bag(Members(TypedRefs(t, m)))) else None
    case PathKey(key) => if key in t.paths then Some(Text(t.paths[key])) else None
    case ChallengeKey(token, m) =>
      if (token, m) in t.chals then Some(Text(PrintChallenge(t.chals[(token, m)]))) else None
  }

  function Lookup(keys: map<string, Item>, key: string): Option<Item> {
    if key in keys then Some(keys[key]) else None
  }

  /** The one flat keyspace holds what the typed maps say. */
  ghost predicate Shows(keys: map<string, Item>, t: Typed) {
    && (forall k: RedisKey :: Lookup(keys, Encode(k)) == Entry(t, k))
    && (forall m | m in t.refs :: t.refs[m] != {})
  }

  /** A command on one key is one update of one typed map: no other map can notice it, because no two typed
      keys share a Redis key. */
  lemma OneKeyChanges(keys: map<string, Item>, t: Typed, changed: map<string, Item>, u: Typed, k: RedisKey)
    requires Shows(keys, t)
    requires forall key | key != Encode(k) :: Lookup(changed, key) == Lookup(keys, key)
    requires forall l | l != k :: Entry(u, l) == Entry(t, l)
    requires Lookup(changed, Encode(k)) == Entry(u, k)
    requires forall m | m in u.refs :: u.refs[m] != {}
    ensures Shows(changed, u)
  {
    forall l: RedisKey ensures Lookup(changed, Encode(l)) == Entry(u, l) {
      if l != k && Encode(l) == Encode(k) {
        EncodeInjective(l, k);
      }
    }
  }

  // ---------------------------------------------------------------- sets

  function BagOf(keys: map<string, Item>, key: string): set<string> {
    if key in keys && keys[key].Bag? then keys[key].members else {}
  }

  /** A set replaced; an empty one is dropped. */
  function WithBag(keys: map<string, Item>, key: string, members: set<string>): map<string, Item> {
    if members == {} then keys - {key} else keys[key := Bag(members)]
  }

  /** A reference set replaced; an empty one is dropped. */
  function WithRefs(t: Typed, m: Md5, ks: set<Key>): Typed {
    t.(refs := if ks == {} then t.refs - {m} else t.refs[m := ks])
  }

  lemma WithRefsIs(t: Typed, m: Md5, ks: set<Key>)
    requires forall n | n in t.refs :: t.refs[n] != {}
    ensures var u := WithRefs(t, m, ks);
            && (forall n :: TypedRefs(u, n) == if n == m then ks else TypedRefs(t, n))
            && (forall n | n in u.refs :: u.refs[n] != {})
            && (forall l | l != RefsKey(m) :: Entry(u, l) == Entry(t, l))
            && Entry(u, RefsKey(m)) == if ks == {} then None else Some(Bag(Members(ks)))
  {
  }

  /** The key of a reference set never holds a string, so SADD, SREM and SCARD find the set. */
  lemma RefsAreBags(keys: map<string, Item>, t: Typed, m: Md5)
    requires Shows(keys, t)
    ensures var key := Encode(RefsKey(m));
            (key in keys ==> keys[key].Bag?) && BagOf(keys, key) == Members(TypedRefs(t, m))
  {
    assert Lookup(keys, Encode(RefsKey(m))) == Entry(t, RefsKey(m));
    assert Members({}) == {};
  }

  /** Replacing the set under a key is replacing the reference set. */
  lemma BagShows(keys: map<string, Item>, t: Typed, m: Md5, ks: set<Key>)
    requires Shows(keys, t)
    ensures Shows(WithBag(keys, Encode(RefsKey(m)), Members(ks)), WithRefs(t, m, ks))
  {
    MembersCount(ks);
    WithRefsIs(t, m, ks);
    hide Members, Encode, Entry, WithRefs;
    OneKeyChanges(keys, t, WithBag(keys, Encode(RefsKey(m)), Members(ks)), WithRefs(t, m, ks), RefsKey(m));
  }

  /** SADD is one addition to one reference set. */
  lemma AddedShows(keys: map<string, Item>, t: Typed, m: Md5, k: Key)
    requires Shows(keys, t)
    ensures var key := Encode(RefsKey(m));
            Shows(keys[key := Bag(BagOf(keys, key) + {Member(k)})], t.(refs := t.refs[m := TypedRefs(t, m) + {k}]))
  {
    RefsAreBags(keys, t, m);
    MembersAdd(TypedRefs(t, m), k);
    hide Shows, Members, Encode, TypedRefs, BagOf;
    BagShows(keys, t, m, TypedRefs(t, m) + {k});
  }

  /** SREM is one removal from one reference set, and SCARD then says how many references are left. */
  lemma RemovedShows(keys: map<string, Item>, t: Typed, m: Md5, k: Key)
    requires Shows(keys, t)
    ensures var key, rest := Encode(RefsKey(m)), TypedRefs(t, m) - {k};
            var left := BagOf(keys, key) - {Member(k)};
            |left| == |rest| && Shows(WithBag(keys, key, left), WithRefs(t, m, rest))
  {
    RefsAreBags(keys, t, m);
    MembersRemove(TypedRefs(t, m), k);
    MembersCount(TypedRefs(t, m) - {k});
    hide Shows, Members, Encode, TypedRefs, BagOf;
    BagShows(keys, t, m, TypedRefs(t, m) - {k});
  }

  // ---------------------------------------------------------------- time limits

  /** The keys that SETEX sets. */
  predicate Expires(k: RedisKey) {
    k.SessionKey? || k.ChallengeKey?
  }

  /** Only sessions and challenges have a time limit. */
  ghost predicate LimitsOk(limits: map<string, nat>) {
    forall key | key in limits :: exists k: RedisKey :: Expires(k) && Encode(k) == key
  }

  /** What is left when the time of a key is over. */
  function WithoutKey(t: Typed, k: RedisKey): Typed {
    match k
    case SessionKey(token) => t.(sessions := t.sessions - {token})
    case ObjectKey(m) => t.(objects := t.objects - {m})
    case SizeKey(m) => t.(sizes := t.sizes - {m})
    case RefsKey(m) => t.(refs := t.refs - {m})
    case PathKey(key) => t.(paths := t.paths - {key})
    case ChallengeKey(token, m) => t.(chals := t.chals - {(token, m)})
  }

  lemma EntryGone(t: Typed, k: RedisKey)
    ensures Entry(WithoutKey(t, k), k) == None
    ensures (forall m | m in t.refs :: t.refs[m] != {}) ==>
              forall m | m in WithoutKey(t, k).refs :: WithoutKey(t, k).refs[m] != {}
  {
    hide Members;
  }

  lemma EntryElsewhere(t: Typed, k: RedisKey, l: RedisKey)
    requires l != k
    ensures Entry(WithoutKey(t, k), l) == Entry(t, l)
  {
    hide Members;
  }

  /** DEL of one key. */
  lemma DeletedShows(keys: map<string, Item>, t: Typed, k: RedisKey)
    requires Shows(keys, t)
    ensures Shows(keys - {Encode(k)}, WithoutKey(t, k))
  {
    hide Encode, Entry, WithoutKey;
    var u := WithoutKey(t, k);
    EntryGone(t, k);
    forall l | l != k ensures Entry(u, l) == Entry(t, l) {
      EntryElsewhere(t, k, l);
    }
    OneKeyChanges(keys, t, keys - {Encode(k)}, u, k);
  }
}
