/** The content store: index rows, Redis entries, object and part files, and the operations on
    them as functions from one state to the next (src/transfer.cpp). */
module Store {
  import opened Basics
  import opened Disk
  import opened PathTexts
  import Like

  /** A user's logical path: the key of the index, of `cs:path` and of the reference sets. */
  datatype Key = Key(user: int, path: string)

  /** A row of `file_index`. */
  datatype Row = Row(md5: Md5, size: nat, isDir: bool)

  datatype Challenge = Challenge(offset: U64, len: U32)

  /** A login token: hexadecimal, so it never holds the ':' that separates the parts of a Redis key. */
  type Token = t: string | ':' !in t witness ""

  /** The state that outlives a connection. */
  datatype Store = Store(
    rows: map<Key, Row>,                    // MySQL file_index
    paths: map<Key, Md5>,                   // cs:path:<user>:<path>
    refs: map<Md5, set<Key>>,               // cs:refs:<md5>
    sizes: map<Md5, nat>,                   // cs:obj:<md5> and cs:objsize:<md5>
    chals: map<(Token, Md5), Challenge>,    // cs:chal:<token>:<md5>
    disk: Disk)

  const EMPTY := Store(map[], map[], map[], map[], map[], Disk(map[], map[], []))

  datatype Config = Config(maxUpload: U64, challengeBytes: U32, chunkSize: U32, sessionTtl: nat)

  /** What the handlers take from outside: the digest function and the configuration. */
  datatype Env = Env(hash: Bytes -> Md5, config: Config)

  // ---------------------------------------------------------------- reading

  predicate IsFile(s: Store, k: Key) { k in s.rows && !s.rows[k].isDir }

  /** The md5 in the file row at `k`; "" when there is no file row. */
  function FileMd5(s: Store, k: Key): Md5 {
    if IsFile(s, k) then s.rows[k].md5 else ""
  }

  function PathMd5(s: Store, k: Key): Md5 {
    if k in s.paths then s.paths[k] else ""
  }

  /** The content a key stands for: the shortcut first, then the row. */
  function KeyMd5(s: Store, k: Key): Md5 {
    if PathMd5(s, k) != "" then PathMd5(s, k) else FileMd5(s, k)
  }

  function Refs(s: Store, m: Md5): set<Key> {
    if m in s.refs then s.refs[m] else {}
  }

  // ---------------------------------------------------------------- references

  /** addContentRef */
  function AddRef(s: Store, k: Key, m: Md5, size: nat): Store {
    s.(refs := s.refs[m := Refs(s, m) + {k}],
       rows := s.rows[k := Row(m, size, false)],
       paths := s.paths[k := m])
  }

  function Unindex(s: Store, k: Key): Store {
    s.(rows := s.rows - {k}, paths := s.paths - {k})
  }

  /** Collecting an object: its file, its metadata and its reference set go. */
  function Collect(s: Store, m: Md5): Store {
    s.(disk := UnlinkObjects(s.disk, {m}), sizes := s.sizes - {m}, refs := s.refs - {m})
  }

  /** Two states that differ in references, object metadata and unlinked objects only. */
  ghost predicate OnlyUnlinks(s: Store, t: Store) {
    && t.rows == s.rows && t.paths == s.paths && t.chals == s.chals
    && ObjectsUnlinked(s.disk, t.disk)
  }

  /** SREM of a key, and collection of the object when that was its last reference. */
  function DropRef(s: Store, m: Md5, k: Key): (t: Store)
    ensures OnlyUnlinks(s, t)
  {
    if m == "" then s
    else if Refs(s, m) - {k} == {} then Collect(s, m)
    else s.(refs := s.refs[m := Refs(s, m) - {k}])
  }

  /** releaseContentRef */
  function Release(s: Store, k: Key): (t: Store)
    ensures OnlyUnlinks(s, t.(rows := s.rows, paths := s.paths))
    ensures t.rows == s.rows - {k} && t.paths == s.paths - {k}
  {
    Unindex(DropRef(s, KeyMd5(s, k), k), k)
  }

  /** renameIndexedFile */
  function RenameFile(s: Store, from: Key, to: Key, m: Md5, size: nat): Store {
    s.(refs := s.refs[m := Refs(s, m) - {from} + {to}],
       rows := s.rows[to := Row(m, size, false)] - {from},
       paths := (s.paths - {from})[to := m])
  }

  /** The index part of renaming anything that has no file row. */
  function RenameOther(s: Store, from: Key, to: Key, size: nat): Store {
    var m := PathMd5(s, from);
    var t := Unindex(s, from);
    t.(rows := t.rows[to := Row(m, size, false)],
       paths := if m != "" then t.paths[to := m] else t.paths)
  }

  function IndexDir(s: Store, k: Key): Store {
    s.(rows := s.rows[k := Row("", 0, true)])
  }

  // ---------------------------------------------------------------- recursive removal

  /** The keys that `SELECT ... is_dir=0 AND virtual_path LIKE 'dir/%'` returns. */
  function Selected(s: Store, user: int, dir: string): set<Key> {
    set k | k in s.rows && k.user == user && !s.rows[k].isDir &&
            Like.Matches(DirPrefix(dir) + "%", k.path)
  }

  /** The references that releasing all of `ks` takes out of the set of `m`. */
  function Released(s: Store, ks: set<Key>, m: Md5): set<Key> {
    set k | k in ks && KeyMd5(s, k) == m
  }

  /** The md5s whose last reference goes when all of `ks` are released. */
  function Collected(s: Store, ks: set<Key>): set<Md5> {
    set k | k in ks && KeyMd5(s, k) != "" && Refs(s, KeyMd5(s, k)) <= Released(s, ks, KeyMd5(s, k))
      :: KeyMd5(s, k)
  }

  /** Releasing every key of a set at once: what the loop of releaseIndexedUnderPrefix amounts to. */
  function Sweep(s: Store, ks: set<Key>): (t: Store)
    ensures OnlyUnlinks(s, t.(rows := s.rows, paths := s.paths))
    ensures t.rows == s.rows - ks && t.paths == s.paths - ks
  {
    var gone := Collected(s, ks);
    s.(rows := s.rows - ks,
       paths := s.paths - ks,
       refs := map m | m in s.refs && m !in gone :: s.refs[m] - (if m == "" then {} else Released(s, ks, m)),
       sizes := s.sizes - gone,
       disk := UnlinkObjects(s.disk, gone))
  }

  /** publishObject: the object file and its metadata. */
  function Publish(s: Store, m: Md5, b: Bytes): Store {
    s.(sizes := s.sizes[m := |b|], disk := PublishFile(s.disk, m, b))
  }

  // ---------------------------------------------------------------- instant upload

  /** The polynomial hash that picks the challenged range, in 64-bit arithmetic. */
  function Seed(text: string): U64 {
    if text == "" then 0
    else (Seed(text[..|text| - 1]) * 131 + text[|text| - 1] as int % 0x100) % TWO_TO_THE_64
  }

  function ChallengeFor(e: Env, token: Token, m: Md5, size: U64): Challenge {
    var want := if e.config.challengeBytes == 0 then 4096 else e.config.challengeBytes;
    if size == 0 then Challenge(0, 0)
    else
      var len: U32 := Min(want, size);
      var span := size - len;
      Challenge(if span > 0 then Seed(m + token) % span else 0, len)
  }

  /** The challenged range lies inside the object, whatever its size and the configured length. */
  lemma ChallengeInRange(e: Env, token: Token, m: Md5, size: U64)
    ensures var c := ChallengeFor(e, token, m, size); c.offset + c.len <= size
    ensures size > 0 ==> ChallengeFor(e, token, m, size).len > 0
  {
  }
}
