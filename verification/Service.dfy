/** TransferService (src/transfer.cpp): its methods, statement by statement, against the operations of Store
    and Transfer. */
module Service {
  import opened Basics
  import opened Disk
  import opened Store
  import opened Keyspace
  import opened Redis
  import opened PathTexts
  import opened Sweeping
  import S = Store
  import T = Transfer
  import Like

  /** Every path names an existing inode, and no object shares one with a part. */
  ghost predicate WellLinked(d: Disk) {
    && (forall m | m in d.objects :: d.objects[m] < |d.inodes|)
    && (forall p | p in d.parts :: d.parts[p] < |d.inodes|)
    && (forall m, p | m in d.objects && p in d.parts :: d.objects[m] != d.parts[p])
  }

  /** The rows of a query's result, in whatever order the database returns them. */
  method Enumerate(all: set<Key>) returns (paths: seq<Key>)
    ensures forall i, j | 0 <= i < j < |paths| :: paths[i] != paths[j]
    ensures Elements(paths) == all
  {
    var unread := all;
    paths := [];
    assert Elements(paths) == {};
    hide Elements;
    while unread != {}
      invariant unread <= all && Elements(paths) == all - unread
      invariant forall i, j | 0 <= i < j < |paths| :: paths[i] != paths[j]
      decreases |unread|
    {
      var k :| k in unread;
      ElementsIn(paths, k);
      ElementsSnoc(paths, k);
      paths, unread := paths + [k], unread - {k};
    }
  }

  class TransferService {
    const env: Env
    const objectsRoot: string
    const redis: RedisStore
    /** The MySQL table file_index. */
    var rows: map<Key, Row>
    /** Object and part files. */
    var disk: Disk

    /** The five structures as one value. */
    ghost function State(): Store
      reads this, redis
    {
      Store(rows, redis.typed.paths, redis.typed.refs, redis.typed.sizes, redis.typed.chals, disk)
    }

    /** The login sessions, which are no part of State. */
    ghost function Sessions(): map<Token, string>
      reads redis
    {
      redis.typed.sessions
    }

    /** objectPathFor */
    function ObjectPath(m: Md5): string {
      objectsRoot + "/" + m[..Min(2, |m|)] + "/" + m
    }

    ghost predicate Valid()
      reads this, redis
    {
      && redis.Valid()
      && redis.typed.objects.Keys == redis.typed.sizes.Keys
      && (forall m | m in redis.typed.objects :: redis.typed.objects[m] == ObjectPath(m))
      && WellLinked(disk)
    }

    constructor (env: Env, objectsRoot: string, redis: RedisStore)
      requires redis.Valid() && redis.typed == Typed(map[], map[], map[], map[], map[], map[])
      ensures Valid() && this.env == env && this.redis == redis && State() == EMPTY
    {
      this.env, this.objectsRoot, this.redis := env, objectsRoot, redis;
      rows, disk := map[], Disk(map[], map[], []);
    }

    // -------------------------------------------------------------- files

    /** The cached path never disagrees with the computed one. */
    method ResolveObjectPath(m: Md5) returns (path: string)
      requires Valid()
      ensures path == ObjectPath(m)
    {
      path := redis.GetObjectPath(m);
      if path != "" {
        return;
      }
      path := ObjectPath(m);
    }

    /** The inner loop of copyToObjectStore. */
    method WriteOut(output: Inode, buf: Bytes)
      requires output < |disk.inodes|
      modifies this`disk
      ensures disk == SetContent(old(disk), output, Content(old(disk), output) + buf)
    {
      ghost var b := Content(disk, output);
      assert b + buf[..0] == b;
      var off: nat := 0;
      while off < |buf|
        invariant off <= |buf| && disk == SetContent(old(disk), output, b + buf[..off])
      {
        var w: nat :| 0 < w <= |buf| - off;
        assert b + buf[..off] + buf[off..off + w] == b + buf[..off + w];
        disk := SetContent(disk, output, Content(disk, output) + buf[off..off + w]);
        off := off + w;
      }
      assert buf[..off] == buf;
    }

    /** The loop of copyToObjectStore: reads come back short and writes are partial, as they like. */
    method CopyBytes(input: Inode, output: Inode) returns (copied: nat)
      requires input < |disk.inodes| && output < |disk.inodes| && input != output
      modifies this`disk
      ensures disk == SetContent(old(disk), output, Content(old(disk), output) + Content(old(disk), input))
      ensures copied == |Content(old(disk), input)|
    {
      var size := if env.config.chunkSize != 0 then env.config.chunkSize else 65536;
      ghost var was, b := Content(disk, output), Content(disk, input);
      assert was + b[..0] == was;
      copied := 0;
      while copied < |Content(disk, input)|
        invariant copied <= |b| && disk == SetContent(old(disk), output, was + b[..copied])
      {
        var n: nat :| 0 < n <= size && n <= |Content(disk, input)| - copied;
        var buf := Content(disk, input)[copied..copied + n];
        assert was + b[..copied] + buf == was + b[..copied + n];
        WriteOut(output, buf);
        copied := copied + n;
      }
      assert b[..copied] == b;
    }

    /** copyToObjectStore */
    method CopyToObjectStore(part: PartName, m: Md5, expected: nat) returns (error: Option<ErrorCode>)
      requires Valid()
      modifies this`disk
      ensures Valid()
      ensures part !in old(disk).parts ==> disk == old(disk) && error == Some(NotFound)
      ensures part in old(disk).parts ==>
        var copied := CopyOf(old(disk), m, PartBytes(old(disk), part));
        if expected != 0 && expected != |PartBytes(old(disk), part)|
        then disk == UnlinkObjects(copied, {m}) && error == Some(Unprocessable)
        else disk == copied && error.None?
    {
      if part !in disk.parts {
        return Some(NotFound);
      }
      var input := disk.parts[part];
      ghost var b := Content(disk, input);
      disk := CopyOf(disk, m, []);
      CopyMore(old(disk), m, [], b);
      assert [] + b == b;
      var copied := CopyBytes(input, disk.objects[m]);
      if expected != 0 && copied != expected {
        disk := UnlinkObjects(disk, {m});
        return Some(Unprocessable);
      }
      return None;
    }

    /** Afterwards the object has the part's bytes or, when it was there with that size, the bytes it had. */
    method PublishObject(m: Md5, part: PartName, size: nat) returns (error: Option<ErrorCode>)
      requires Valid()
      modifies this`disk, redis
      ensures Valid() && Sessions() == old(Sessions())
      ensures var was, b := old(State()), PartBytes(old(disk), part);
        if m in was.disk.objects && |ObjectBytes(was.disk, m)| == size then
          error.None? && State() == was.(sizes := was.sizes[m := size])
        else if part !in was.disk.parts then
          error == Some(NotFound) && State() == was
        else if size != 0 && size != |b| then
          error == Some(Unprocessable) && State() == was.(disk := UnlinkObjects(CopyOf(was.disk, m, b), {m}))
        else
          error.None? && State() == was.(disk := CopyOf(was.disk, m, b), sizes := was.sizes[m := size])
    {
      hide Shows, LimitsOk, CopyOf;
      if m in disk.objects && |ObjectBytes(disk, m)| == size {
        redis.SetObject(m, ObjectPath(m), size);
        return None;
      }
      error := CopyToObjectStore(part, m, size);
      if error.Some? {
        return;
      }
      redis.SetObject(m, ObjectPath(m), size);
    }

    // -------------------------------------------------------------- the index

    method IndexFile(k: Key, m: Md5, size: nat, isDir: bool)
      modifies this`rows
      ensures rows == old(rows)[k := Row(m, size, isDir)]
    {
      rows := rows[k := Row(m, size, isDir)];
    }

    method Unindex(k: Key)
      requires Valid()
      modifies this`rows, redis
      ensures Valid() && Sessions() == old(Sessions()) && State() == S.Unindex(old(State()), k)
    {
      rows := rows - {k};
      redis.DelPathMd5(k);
    }

    method LookupFile(k: Key) returns (info: Option<Row>)
      ensures info == if k in rows then Some(rows[k]) else None
    {
      info := if k in rows then Some(rows[k]) else None;
    }

    // -------------------------------------------------------------- references

    method AddContentRef(k: Key, m: Md5, size: nat)
      requires Valid()
      modifies this`rows, redis
      ensures Valid() && Sessions() == old(Sessions())
      ensures State() == S.AddRef(old(State()), k, m, size)
    {
      redis.AddRef(m, k);
      IndexFile(k, m, size, false);
      redis.SetPathMd5(k, m);
    }

    /** The content a key stands for: its shortcut, else its file row. */
    method ContentOf(k: Key) returns (m: Md5)
      requires Valid()
      ensures m == KeyMd5(State(), k)
    {
      m := redis.GetPathMd5(k);
      if m == "" {
        var info := LookupFile(k);
        if info.Some? && !info.value.isDir {
          m := info.value.md5;
        }
      }
    }

    method DropContentRef(m: Md5, k: Key)
      requires Valid() && m != ""
      modifies this`disk, redis
      ensures Valid() && Sessions() == old(Sessions()) && State() == DropRef(old(State()), m, k)
    {
      hide Shows, LimitsOk;
      var left := redis.RemoveRef(m, k);
      if left <= 0 {
        disk := UnlinkObjects(disk, {m});
        redis.DeleteObjectMeta(m);
        assert disk == DropRef(old(State()), m, k).disk;
      }
    }

    method ReleaseContentRef(k: Key)
      requires Valid()
      modifies this, redis
      ensures Valid() && Sessions() == old(Sessions()) && State() == Release(old(State()), k)
    {
      var m := ContentOf(k);
      if m != "" {
        DropContentRef(m, k);
      }
      Unindex(k);
    }

    /** The file rows of a user whose paths a query selects. */
    method FetchFiles(user: int, query: string -> bool) returns (paths: seq<Key>)
      ensures forall i, j | 0 <= i < j < |paths| :: paths[i] != paths[j]
      ensures Elements(paths) == set k | k in rows && k.user == user && !rows[k].isDir && query(k.path)
    {
      paths := Enumerate(set k | k in rows && k.user == user && !rows[k].isDir && query(k.path));
    }

    method ReleaseEach(paths: seq<Key>)
      requires Valid()
      modifies this, redis
      ensures Valid() && Sessions() == old(Sessions()) && State() == ReleaseAll(old(State()), paths)
    {
      for i := 0 to |paths|
        invariant Valid() && Sessions() == old(Sessions()) && State() == ReleaseAll(old(State()), paths[..i])
      {
        assert paths[..i + 1][..i] == paths[..i];
        ReleaseContentRef(paths[i]);
      }
      assert paths[..|paths|] == paths;
    }

    /** References are released one by one, collecting objects on the way; the order does not matter. */
    method ReleaseIndexedUnderPrefix(user: int, dir: string)
      requires Valid()
      modifies this, redis
      ensures Valid() && Sessions() == old(Sessions())
      ensures State() == Sweep(old(State()), Selected(old(State()), user, dir))
    {
      var prefix := PrefixOf(dir);
      var paths := FetchFiles(user, path => Like.Matches(prefix + "%", path));
      LoopIsSweep(State(), paths);
      ReleaseEach(paths);
      assert Elements(paths) == Selected(old(State()), user, dir);
    }

    method PrefixOf(dir: string) returns (prefix: string)
      ensures prefix == DirPrefix(dir)
    {
      prefix := dir;
      if prefix == "" || prefix == "/" {
        prefix := "/";
      }
      if prefix[|prefix| - 1] != '/' {
        prefix := prefix + "/";
      }
    }

    method MoveRef(m: Md5, from: Key, to: Key)
      requires Valid()
      modifies redis
      ensures Valid() && redis.typed == old(redis.typed).(
        refs := old(redis.typed).refs[m := old(TypedRefs(redis.typed, m)) - {from} + {to}])
    {
      hide Shows, LimitsOk;
      var left := redis.RemoveRef(m, from);
      redis.AddRef(m, to);
    }

    method RenameIndexedFile(from: Key, to: Key, m: Md5, size: nat)
      requires Valid()
      modifies this`rows, redis
      ensures Valid() && Sessions() == old(Sessions())
      ensures State() == RenameFile(old(State()), from, to, m, size)
    {
      MoveRef(m, from, to);
      redis.DelPathMd5(from);
      IndexFile(to, m, size, false);
      redis.SetPathMd5(to, m);
      rows := rows - {from};
    }

    // -------------------------------------------------------------- instant upload

    method SeedOf(text: string) returns (seed: U64)
      ensures seed == Seed(text)
    {
      seed := 0;
      for i := 0 to |text|
        invariant seed == Seed(text[..i])
      {
        assert text[..i + 1][..i] == text[..i];
        seed := (seed * 131 + text[i] as int % 0x100) % TWO_TO_THE_64;
      }
      assert text[..|text|] == text;
    }

    method QueryInstant(token: Token, m: Md5, size: U64) returns (r: Result<Option<Challenge>>)
      requires Valid()
      modifies redis
      ensures Valid() && Sessions() == old(Sessions())
      ensures r == T.QueryInstant(env, old(State()), token, m, size)
      ensures State() == if r.Ok? && r.value.Some? then T.IssueChallenge(old(State()), token, m, r.value.value)
                         else old(State())
    {
      hide Shows, LimitsOk, WellLinked, Seed;
      if |m| != 32 {
        return Err(BadRequest);
      }
      var path := ResolveObjectPath(m);
      if m !in disk.objects || |ObjectBytes(disk, m)| != size {
        return Ok(None);
      }
      var len: U32 := env.config.challengeBytes;
      if len == 0 {
        len := 4096;
      }
      var offset: U64 := 0;
      if size == 0 {
        len := 0;
      } else {
        if len > size {
          len := size;
        }
        var span := if size > len then size - len else 0;
        var seed := SeedOf(m + token);
        offset := if span != 0 then seed % span else 0;
      }
      redis.SetChallenge(token, m, Challenge(offset, len));
      return Ok(Some(Challenge(offset, len)));
    }

    /** The checks of instantUpload. */
    method CheckClaim(token: Token, claim: T.Claim) returns (refusal: Option<ErrorCode>)
      requires Valid()
      ensures refusal == T.ClaimRefusal(env, State(), token, claim)
    {
      var expected := redis.GetChallenge(token, claim.md5);
      if expected.value.None? {
        return Some(BadRequest);
      }
      var c := expected.value.value;
      if claim.offset != c.offset {
        return Some(Forbidden);
      }
      var path := ResolveObjectPath(claim.md5);
      if claim.md5 !in disk.objects {
        return Some(NotFound);
      }
      var b := ObjectBytes(disk, claim.md5);
      if |b| != claim.size {
        return Some(Unprocessable);
      }
      if c.len > 0 {
        if c.offset + c.len > |b| {
          return Some(Internal);
        }
        if env.hash(b[c.offset..c.offset + c.len]) != claim.proof {
          return Some(Forbidden);
        }
      }
      return None;
    }

    /** `destExists` is what lstat finds in the physical user tree. */
    method InstantUpload(token: Token, k: Key, claim: T.Claim, destExists: bool, overwrite: bool)
      returns (error: Option<ErrorCode>)
      requires Valid()
      modifies this, redis
      ensures Valid() && Sessions() == old(Sessions())
      ensures (State(), error) == T.InstantUpload(env, old(State()), token, k, claim, destExists, overwrite)
    {
      hide Shows, LimitsOk, WellLinked;
      var refusal := CheckClaim(token, claim);
      if refusal.Some? {
        return refusal;
      }
      redis.DelChallenge(token, claim.md5);
      var existing := LookupFile(k);
      if existing.Some? && !existing.value.isDir {
        if !overwrite {
          return Some(Conflict);
        }
        ReleaseContentRef(k);
      } else if destExists && !overwrite {
        return Some(Conflict);
      }
      AddContentRef(k, claim.md5, claim.size);
      return None;
    }

    // -------------------------------------------------------------- upload

    method BeginUpload(part: PartName, path: string, m: Md5, size: U64, fileId: T.FileId) returns (r: Result<T.Upload>)
      requires Valid()
      modifies this`disk
      ensures Valid()
      ensures if T.BeginRefusal(env, m, size).Some?
              then r == Err(T.BeginRefusal(env, m, size).value) && disk == old(disk)
              else r.Ok? && (disk, r.value) == T.BeginUpload(old(disk), part, path, m, size, fileId)
    {
      if size > env.config.maxUpload {
        return Err(PayloadTooLarge);
      }
      if |m| != 32 {
        return Err(BadRequest);
      }
      if part !in disk.parts {
        disk := disk.(parts := disk.parts[part := |disk.inodes|], inodes := disk.inodes + [[]]);
      }
      var fd := disk.parts[part];
      var received: nat := |Content(disk, fd)|;
      if received > size {
        received := 0;
        disk := SetContent(disk, fd, []);
      }
      return Ok(T.Upload(fileId, path, part, m, size, received, Some(fd)));
    }

    method WriteChunk(st: T.Upload, offset: U64, data: Bytes) returns (error: Option<ErrorCode>, after: T.Upload)
      requires Valid() && |data| < TWO_TO_THE_32
      modifies this`disk
      ensures Valid() && error == T.WriteRefusal(st, offset, data)
      ensures if error.Some? then disk == old(disk) && after == st
              else (disk, after) == T.WriteChunk(old(disk), st, offset, data)
    {
      after := st;
      if st.fd.None? {
        return Some(BadRequest), st;
      }
      var end: U64 := (offset + |data|) % TWO_TO_THE_64;
      if end > st.total {
        return Some(BadRequest), st;
      }
      if offset >= TWO_TO_THE_63 {
        return Some(Internal), st;
      }
      disk := Write(disk, st.fd.value, offset, data);
      error := None;
      if end > st.received {
        after := st.(received := end);
      }
    }

    /** The checks of finishUpload; a part with the wrong digest is unlinked. */
    method CheckPart(st: T.Upload) returns (refusal: Option<ErrorCode>)
      requires Valid() && st.fd.Some?
      modifies this`disk
      ensures Valid() && refusal == T.FinishRefusal(env, old(disk), st)
      ensures disk == if refusal.Some? then T.AfterRefusedFinish(old(disk), st) else old(disk)
    {
      if |PartBytes(disk, st.part)| != st.total {
        return Some(Unprocessable);
      }
      if st.part !in disk.parts {
        return Some(Internal);
      }
      var digest := env.hash(PartBytes(disk, st.part));
      if digest != st.md5 {
        disk := UnlinkPart(disk, st.part);
        return Some(Unprocessable);
      }
      return None;
    }

    method FinishUpload(user: int, st: T.Upload) returns (error: Option<ErrorCode>, after: T.Upload)
      requires Valid()
      modifies this, redis
      ensures Valid() && Sessions() == old(Sessions())
      ensures error == T.FinishRefusal(env, old(disk), st) && after == st.(fd := None)
      ensures State() == if error.Some? then old(State()).(disk := T.AfterRefusedFinish(old(disk), st))
                         else T.FinishUpload(old(State()), Key(user, st.path), st)
    {
      hide Shows, LimitsOk, WellLinked;
      if st.fd.None? {
        return Some(BadRequest), st;
      }
      after := st.(fd := None);
      error := CheckPart(st);
      if error.Some? {
        return;
      }
      var k := Key(user, st.path);
      var existing := LookupFile(k);
      if existing.Some? && !existing.value.isDir {
        ReleaseContentRef(k);
      }
      PublishPart(k, st);
    }

    /** The rest of finishUpload: publish, drop the part, refer. */
    method PublishPart(k: Key, st: T.Upload)
      requires Valid() && st.part in disk.parts && |PartBytes(disk, st.part)| == st.total
      modifies this, redis
      ensures Valid() && Sessions() == old(Sessions())
      ensures var published := Publish(old(State()), st.md5, PartBytes(old(disk), st.part));
              State() == S.AddRef(published.(disk := UnlinkPart(published.disk, st.part)), k, st.md5, st.total)
    {
      hide Shows, LimitsOk;
      var error := PublishObject(st.md5, st.part, st.total);
      assert error.None?;
      disk := UnlinkPart(disk, st.part);
      AddContentRef(k, st.md5, st.total);
    }

    // -------------------------------------------------------------- download

    method BeginDownload(k: Key, fileId: T.FileId) returns (r: Result<T.Download>)
      requires Valid()
      ensures r == T.BeginDownload(State(), k, fileId)
    {
      var m := ContentOf(k);
      if m == "" {
        return Err(NotFound);
      }
      var path := ResolveObjectPath(m);
      if m !in disk.objects {
        return Err(NotFound);
      }
      return Ok(T.Download(fileId, |ObjectBytes(disk, m)|, Some(disk.objects[m])));
    }

    /** `short` says how many bytes pread returns when it returns fewer than asked for. */
    method ReadChunk(st: T.Download, offset: U64, want: U32, short: nat) returns (r: Result<Bytes>)
      ensures r == if st.fd.None? then Err(BadRequest) else Ok(T.ReadChunk(disk, st, offset, want, short))
    {
      if st.fd.None? {
        return Err(BadRequest);
      }
      if offset >= st.total {
        return Ok([]);
      }
      var len: nat := want;
      if offset + len > st.total {
        len := st.total - offset;
      }
      var b := Content(disk, st.fd.value);
      var n := if offset >= |b| then 0 else Min(len, |b| - offset);
      if 0 < short < n {
        n := short;
      }
      return Ok(if offset >= |b| then [] else b[offset..offset + n]);
    }

    // -------------------------------------------------------------- listing

    /** The loop's test on a fetched path. */
    method IsListed(prefix: string, path: string) returns (listed: bool)
      requires prefix != ""
      ensures listed == ('/' !in RestAfter(prefix, path))
    {
      var rest := path;
      if prefix != "/" && prefix <= rest {
        rest := rest[|prefix| - 1..];
        if rest != "" && rest[0] == '/' {
          rest := rest[1..];
        }
      } else if prefix == "/" && rest != "" && rest[0] == '/' {
        rest := rest[1..];
      }
      return '/' !in rest;
    }

    /** Each file of the user that Listed selects comes once, with its row's md5 and size. */
    method ListIndexed(user: int, dir: string) returns (out: seq<PendingFile>)
      ensures forall i, j | 0 <= i < j < |out| :: out[i].path != out[j].path
      ensures forall f :: f in out <==>
                var k := Key(user, f.path);
                IsFile(State(), k) && Listed(dir, f.path) && f.md5 == rows[k].md5 && f.size == rows[k].size
    {
      var prefix := PrefixOf(dir);
      var fetched := FetchFiles(user, path => path == dir || Like.Matches(prefix + "%", path));
      out := [];
      for i := 0 to |fetched|
        invariant out == ListOf(rows, prefix, fetched[..i])
      {
        assert fetched[..i + 1][..i] == fetched[..i];
        var listed := IsListed(prefix, fetched[i].path);
        if !listed {
          continue;
        }
        out := out + [Pending(rows, fetched[i])];
      }
      assert fetched[..|fetched|] == fetched;
      assert forall k :: k in fetched <==> k in Elements(fetched);
      ListOfIsListed(rows, user, prefix, fetched);
    }

    // -------------------------------------------------------------- names

    /** `node` is what lstat finds at the physical path. */
    method RemoveUserPath(k: Key, node: T.Node)
      requires Valid()
      modifies this, redis
      ensures Valid() && Sessions() == old(Sessions())
      ensures State() == T.RemovePath(old(State()), k, node)
    {
      hide Shows, LimitsOk, WellLinked;
      var indexed := LookupFile(k);
      if indexed.Some? && !indexed.value.isDir {
        ReleaseContentRef(k);
        return;
      }
      if node == T.Directory {
        ReleaseIndexedUnderPrefix(k.user, k.path);
        Unindex(k);
        return;
      }
      ReleaseContentRef(k);
    }

    /** `moved` is the outcome of renaming the physical path: an error, or the size found at its new place. */
    method RenameUserPath(from: Key, to: Key, moved: Result<nat>) returns (error: Option<ErrorCode>)
      requires Valid()
      modifies this`rows, redis
      ensures Valid() && Sessions() == old(Sessions())
      ensures (State(), error) == T.RenamePath(old(State()), from, to, moved)
    {
      hide Shows, LimitsOk, WellLinked;
      var info := LookupFile(from);
      if info.Some? && !info.value.isDir {
        RenameIndexedFile(from, to, info.value.md5, info.value.size);
        return None;
      }
      if moved.Err? {
        return Some(moved.code);
      }
      var m := redis.GetPathMd5(from);
      Unindex(from);
      IndexFile(to, m, moved.value, false);
      if m != "" {
        redis.SetPathMd5(to, m);
      }
      return None;
    }
  }

  /** The object file of `m`, opened with O_CREAT | O_TRUNC and holding `b`. */
  function CopyOf(d: Disk, m: Md5, b: Bytes): (r: Disk)
    ensures m in r.objects && r.parts == d.parts
  {
    if m in d.objects then SetContent(d, d.objects[m], b)
    else d.(objects := d.objects[m := |d.inodes|], inodes := d.inodes + [b])
  }

  lemma CopyMore(d: Disk, m: Md5, b: Bytes, more: Bytes)
    requires WellLinked(d)
    ensures var r := CopyOf(d, m, b);
            SetContent(r, r.objects[m], Content(r, r.objects[m]) + more) == CopyOf(d, m, b + more)
  {
  }
}
