/** What each request requires, and how it is refused: every answer of a logged-in connection written out in terms of
    the stored state (src/connection.cpp, src/transfer.cpp), and what follows over runs. */
module Requests {
  import opened Basics
  import opened Disk
  import opened Store
  import opened Transfer
  import opened Handlers
  import opened Runs
  import opened Parts
  import opened Paths
  import Text

  // ---------------------------------------------------------------- who may ask

  /** Before a login every request but a login is refused and changes nothing. */
  lemma LoginRequired(e: Env, s: Store, c: Conn, r: Request)
    requires c.session.None? && !r.Login?
    ensures Handle(e, s, c, r) == Outcome(s, c, Refused(Unauthorized))
  {
  }

  /** A client's path stands for its names, in the tree of the session's user. */
  lemma PathIsKey(session: Session, path: string)
    ensures KeyOf(session, path).Ok? <==> NUL !in path && Meaning(Text.Pieces(path, '/')).Ok?
    ensures KeyOf(session, path).Ok? ==>
              KeyOf(session, path).value ==
                Key(session.userId, "/" + Text.Join(Meaning(Text.Pieces(path, '/')).value, '/'))
    ensures KeyOf(session, path).Err? ==> KeyOf(session, path) == Err(Forbidden)
  {
    hide Meaning, Text.Pieces, Text.Join;
    MeaningErrCode(Text.Pieces(path, '/'));
  }

  // ---------------------------------------------------------------- instant upload

  /** instant_query: a hit exactly when an object of that md5 and size is there; the challenge is kept for the
      session's token and the md5. */
  lemma QueryDecided(e: Env, s: Store, c: Conn, m: Md5, size: U64)
    requires c.session.Some?
    ensures var o := Handle(e, s, c, InstantQuery(m, size));
            && o.conn == c
            && if |m| != 32 then o.reply == Refused(BadRequest) && o.store == s
               else if m !in s.disk.objects || |ObjectBytes(s.disk, m)| != size then o.reply == Miss && o.store == s
               else
                 && o.reply == Hit(ChallengeFor(e, c.session.value.token, m, size))
                 && o.store == s.(chals := s.chals[(c.session.value.token, m) := o.reply.challenge])
  {
    hide ChallengeFor, ObjectBytes;
  }

  /** What the seed would be without wraparound. */
  function Polynomial(text: string): nat {
    if text == "" then 0 else 131 * Polynomial(text[..|text| - 1]) + text[|text| - 1] as int % 0x100
  }

  /** The hash in 64-bit arithmetic is the polynomial's low 64 bits. */
  lemma {:induction false} SeedIsPolynomial(text: string)
    ensures Seed(text) == Polynomial(text) % TWO_TO_THE_64
  {
    if text != "" {
      SeedIsPolynomial(text[..|text| - 1]);
      StepModulo(Polynomial(text[..|text| - 1]), text[|text| - 1] as int % 0x100);
    }
  }

  lemma StepModulo(a: nat, c: nat)
    ensures ((a % TWO_TO_THE_64) * 131 + c) % TWO_TO_THE_64 == (131 * a + c) % TWO_TO_THE_64
  {
    var q := a / TWO_TO_THE_64;
    assert 131 * a + c == (a % TWO_TO_THE_64) * 131 + c + (131 * q) * TWO_TO_THE_64;
    WholeTurns((a % TWO_TO_THE_64) * 131 + c, 131 * q);
  }

  lemma {:induction false} WholeTurns(x: nat, n: nat)
    ensures (x + n * TWO_TO_THE_64) % TWO_TO_THE_64 == x % TWO_TO_THE_64
  {
    if n > 0 {
      WholeTurns(x, n - 1);
      assert x + n * TWO_TO_THE_64 == x + (n - 1) * TWO_TO_THE_64 + TWO_TO_THE_64;
    }
  }

  /** The challenged range: as long as configured, 4096 when nothing is, and never longer than the object; it starts
      where the polynomial of md5 and token says. */
  lemma ChallengeIs(e: Env, token: Token, m: Md5, size: U64)
    ensures var c, want := ChallengeFor(e, token, m, size), e.config.challengeBytes;
            && c.len == (if want == 0 then (if size < 4096 then size else 4096)
                         else if size < want then size else want)
            && c.offset == (if size > c.len then Polynomial(m + token) % TWO_TO_THE_64 % (size - c.len) else 0)
  {
    SeedIsPolynomial(m + token);
    hide Polynomial, Seed;
  }

  /** The answer to instant_upload, in the order of the checks. */
  function ClaimAnswer(e: Env, s: Store, token: Token, k: Key, claim: Claim, destExists: bool, overwrite: bool)
    : Handlers.Reply
  {
    var b := ObjectBytes(s.disk, claim.md5);
    if (token, claim.md5) !in s.chals then Refused(BadRequest)
    else
      var ch := s.chals[(token, claim.md5)];
      if claim.offset != ch.offset then Refused(Forbidden)
      else if claim.md5 !in s.disk.objects then Refused(NotFound)
      else if |b| != claim.size then Refused(Unprocessable)
      else if ch.len > 0 && ch.offset + ch.len > |b| then Refused(Internal)
      else if ch.len > 0 && e.hash(b[ch.offset..ch.offset + ch.len]) != claim.proof then Refused(Forbidden)
      else if ((k in s.rows && !s.rows[k].isDir) || destExists) && !overwrite then Refused(Conflict)
      else Done
  }

  /** instant_upload is answered so, for every store, connection and claim. */
  lemma ClaimDecided(e: Env, s: Store, c: Conn, path: string, phys: Result<string>, destExists: bool, claim: Claim,
                     overwrite: bool)
    requires c.session.Some?
    ensures var session, o := c.session.value, Handle(e, s, c, Instant(path, phys, destExists, claim, overwrite));
            && o.conn == c
            && o.reply == (if KeyOf(session, path).Err? then Refused(KeyOf(session, path).code)
                           else if phys.Err? then Refused(phys.code)
                           else ClaimAnswer(e, s, session.token, KeyOf(session, path).value, claim, destExists,
                               overwrite))
            && (o.reply.Refused? ==> o.store.(chals := s.chals) == s)
            && (o.reply.Refused? && o.reply != Refused(Conflict) && phys.Ok? ==> o.store == s)
  {
    hide KeyOf, ObjectBytes, Cleared, AddRef;
  }

  /** A claim is accepted exactly when a challenge was kept for it, the object is there in the claimed size, the
      digest of its bytes in the challenged range is the claimed proof, and nothing is in the way. */
  lemma ClaimAccepted(e: Env, s: Store, c: Conn, path: string, phys: Result<string>, destExists: bool, claim: Claim,
                      overwrite: bool)
    requires c.session.Some?
    ensures var session, b := c.session.value, ObjectBytes(s.disk, claim.md5);
            Handle(e, s, c, Instant(path, phys, destExists, claim, overwrite)).reply == Done <==>
              && KeyOf(session, path).Ok? && phys.Ok?
              && (session.token, claim.md5) in s.chals
              && var ch, k := s.chals[(session.token, claim.md5)], KeyOf(session, path).value;
              && claim.offset == ch.offset
              && claim.md5 in s.disk.objects && |b| == claim.size
              && (ch.len > 0 ==>
                    ch.offset + ch.len <= |b| && e.hash(b[ch.offset..ch.offset + ch.len]) == claim.proof)
              && (overwrite || (!destExists && !(k in s.rows && !s.rows[k].isDir)))
  {
    hide KeyOf, ObjectBytes, Handle;
    ClaimDecided(e, s, c, path, phys, destExists, claim, overwrite);
  }

  /** The step issues the challenge: an instant_query of a session with that token that hits. */
  predicate Issues(e: Env, y: System, l: Label, token: Token, m: Md5, ch: Challenge) {
    && l.Send? && l.request.InstantQuery? && l.request.md5 == m
    && l.id in y.conns && y.conns[l.id].session.Some? && y.conns[l.id].session.value.token == token
    && Handle(e, y.store, y.conns[l.id], l.request).reply == Hit(ch)
  }

  lemma ChalsAfter(e: Env, y: System, l: Label, token: Token, m: Md5)
    requires (token, m) in Next(e, y, l).store.chals
    ensures var ch := Next(e, y, l).store.chals[(token, m)];
            Issues(e, y, l, token, m, ch) || ((token, m) in y.store.chals && y.store.chals[(token, m)] == ch)
  {
    hide Perform, KeyOf, ChallengeFor;
    if l.Send? && l.id in y.conns && y.conns[l.id].session.Some? && l.request.InstantQuery? {
      QueryDecided(e, y.store, y.conns[l.id], l.request.md5, l.request.size);
    } else if OpOf(y, l).Some? {
      QueryIsParsed(y.conns[l.id].session.value, l.request);
      PerformChals(e, y.store, y.conns[l.id], y.conns[l.id].session.value, OpOf(y, l).value, token, m);
    }
  }

  lemma QueryIsParsed(session: Session, r: Request)
    ensures Parse(session, r).Ok? && Parse(session, r).value.DoQuery? ==> r.InstantQuery?
  {
    hide KeyOf, PartOf;
  }

  /** No other request adds a challenge or changes one. */
  lemma PerformChals(e: Env, s: Store, c: Conn, session: Session, op: Op, token: Token, m: Md5)
    requires !op.DoQuery? && (token, m) in Perform(e, s, c, session, op).store.chals
    ensures (token, m) in s.chals && Perform(e, s, c, session, op).store.chals[(token, m)] == s.chals[(token, m)]
  {
    hide OnDownloadChunk, BeginDownload, WriteRefusal, WriteChunk, BeginUpload, FinishRefusal, AfterRefusedFinish;
    hide FinishUpload, RemovePath, RenamePath, InstantUpload;
    match op
    case DoInstant(k, _, destExists, claim, overwrite) =>
      InstantChals(e, s, session.token, k, claim, destExists, overwrite);
    case DoEnd => FinishChals(s, Key(session.userId, c.upload.path), c.upload);
    case DoRm(k, _, node) => NameChals(s, k, k, node, Ok(0));
    case DoRename(k, to, _, moved) => NameChals(s, k, to, Missing, moved);
    case _ =>
  }

  lemma InstantChals(e: Env, s: Store, token: Token, k: Key, claim: Claim, destExists: bool, overwrite: bool)
    ensures var t := InstantUpload(e, s, token, k, claim, destExists, overwrite).0;
            t.chals == s.chals || t.chals == s.chals - {(token, claim.md5)}
  {
    hide ClaimRefusal, DropRef;
  }

  lemma FinishChals(s: Store, k: Key, up: Upload)
    ensures FinishUpload(s, k, up).chals == s.chals
  {
    hide PublishFile, PartBytes, DropRef;
  }

  lemma NameChals(s: Store, k: Key, to: Key, node: Node, moved: Result<nat>)
    ensures RemovePath(s, k, node).chals == s.chals && RenamePath(s, k, to, moved).0.chals == s.chals
  {
    hide DropRef, Sweep;
  }

  /** Every challenge that is kept was issued in the run, to a session with that token. */
  lemma {:induction false} ChallengesAreIssued(e: Env, y: System, ls: seq<Label>, token: Token, m: Md5) returns (i: nat)
    requires y.store.chals == map[] && (token, m) in Run(e, y, ls).store.chals
    ensures i < |ls| && Issues(e, Run(e, y, ls[..i]), ls[i], token, m, Run(e, y, ls).store.chals[(token, m)])
  {
    hide Next, Issues;
    if ls != [] {
      var init, last := ls[..|ls| - 1], ls[|ls| - 1];
      ChalsAfter(e, Run(e, y, init), last, token, m);
      if Issues(e, Run(e, y, init), last, token, m, Run(e, y, ls).store.chals[(token, m)]) {
        i := |init|;
      } else {
        i := ChallengesAreIssued(e, y, init, token, m);
        assert init[..i] == ls[..i] && init[i] == ls[i];
      }
    }
  }

  /** In every run each accepted claim answers a challenge that was issued before to the same token for the same md5,
      and its proof is the digest of the stored bytes in the issued range. */
  lemma AcceptedClaimIsProved(e: Env, y: System, ls: seq<Label>, id: int, path: string, phys: Result<string>,
                              destExists: bool, claim: Claim, overwrite: bool)
    returns (i: nat, ch: Challenge)
    requires y.store.chals == map[]
    requires var z := Run(e, y, ls);
             && id in z.conns && z.conns[id].session.Some?
             && Handle(e, z.store, z.conns[id], Instant(path, phys, destExists, claim, overwrite)).reply == Done
    ensures var z := Run(e, y, ls);
            var b := ObjectBytes(z.store.disk, claim.md5);
            && i < |ls| && Issues(e, Run(e, y, ls[..i]), ls[i], z.conns[id].session.value.token, claim.md5, ch)
            && claim.offset == ch.offset && claim.md5 in z.store.disk.objects && |b| == claim.size
            && (ch.len > 0 ==>
                  ch.offset + ch.len <= |b| && e.hash(b[ch.offset..ch.offset + ch.len]) == claim.proof)
  {
    hide Handle, Run, KeyOf, ObjectBytes, Issues;
    var z := Run(e, y, ls);
    ClaimAccepted(e, z.store, z.conns[id], path, phys, destExists, claim, overwrite);
    ch := z.store.chals[(z.conns[id].session.value.token, claim.md5)];
    i := ChallengesAreIssued(e, y, ls, z.conns[id].session.value.token, claim.md5);
  }

  // ---------------------------------------------------------------- uploads

  /** upload_begin is accepted exactly for a good path, a size within the limit and an md5 of 32 characters; it opens
      the part of the user, the md5 and the path's last name. Refused, it changes no file and leaves no upload open. */
  lemma BeginDecided(e: Env, s: Store, c: Conn, path: string, phys: Result<string>, m: Md5, size: U64, fileId: FileId)
    requires c.session.Some?
    ensures var session, o := c.session.value, Handle(e, s, c, UploadBegin(path, phys, m, size, fileId));
            if KeyOf(session, path).Err? then o == Outcome(s, c, Refused(KeyOf(session, path).code))
            else if phys.Err? || size > e.config.maxUpload || |m| != 32 then
              && o.store == s && o.conn == c.(upload := c.upload.(fd := None))
              && o.reply == Refused(if phys.Err? then phys.code
                                    else if size > e.config.maxUpload then PayloadTooLarge else BadRequest)
            else
              var part := PartName(session.username, m, Text.BaseName(phys.value));
              && part in o.store.disk.parts && |PartBytes(o.store.disk, part)| <= size
              && o.reply == Begun(|PartBytes(o.store.disk, part)|)
              && o.conn == c.(upload := Upload(fileId, KeyOf(session, path).value.path, part, m, size,
                                               |PartBytes(o.store.disk, part)|, Some(o.store.disk.parts[part])))
              && o.store == s.(disk := o.store.disk)
  {
    hide KeyOf, Text.BaseName, PartBytes, OpenPart;
    if KeyOf(c.session.value, path).Ok? && phys.Ok? {
      var part := PartName(c.session.value.username, m, Text.BaseName(phys.value));
      assert PartOf(c.session.value, phys, m) == Ok(part);
    }
  }

  /** A chunk is written exactly when it carries the id of the connection's upload, that upload is open, and the bytes
      lie within its total; nothing else changes. */
  lemma ChunkDecided(e: Env, s: Store, c: Conn, fileId: FileId, offset: U64, data: Bytes)
    requires c.session.Some? && |data| < TWO_TO_THE_32
    requires c.upload.fd.Some? ==> c.upload.fd.value < |s.disk.inodes|
    ensures var up, o := c.upload, Handle(e, s, c, UploadChunk(fileId, offset, data));
            if up.fileId == [] || fileId != up.fileId || up.fd.None? then o == Outcome(s, c, Refused(BadRequest))
            else if offset + |data| > up.total && offset + |data| < TWO_TO_THE_64
                 then o == Outcome(s, c, Refused(BadRequest))
            else if offset + |data| > up.total || offset >= TWO_TO_THE_63
                 then o.store == s && o.conn == c && o.reply.Refused?
            else
              && o.reply == Done
              && o.conn == c.(upload := up.(received := Max(up.received, offset + |data|)))
              && o.store == s.(disk := s.disk.(
                   inodes := s.disk.inodes[up.fd.value := Overlay(s.disk.inodes[up.fd.value], offset, data)]))
  {
    hide Overlay;
    WriteWindow(c.upload, offset, data);
  }

  /** upload_end is accepted exactly when the upload is open and the part is there with the announced size and digest;
      a part of the right size with another digest is thrown away, and the upload is closed in every case. */
  lemma EndDecided(e: Env, s: Store, c: Conn)
    requires c.session.Some?
    ensures var up, o := c.upload, Handle(e, s, c, UploadEnd);
            var b := PartBytes(s.disk, up.part);
            && o.conn.upload.fd.None? && o.conn.session == c.session && o.conn.download == c.download
            && o.reply == (if up.fd.None? then Refused(BadRequest)
                           else if |b| != up.total then Refused(Unprocessable)
                           else if up.part !in s.disk.parts then Refused(Internal)
                           else if e.hash(b) != up.md5 then Refused(Unprocessable)
                           else Done)
            && (o.reply != Done ==>
                  o.store == if up.fd.Some? && up.part in s.disk.parts && |b| == up.total
                             then s.(disk := s.disk.(parts := s.disk.parts - {up.part})) else s)
            && (o.reply == Done ==>
                  var k := Key(c.session.value.userId, up.path);
                  && up.part !in o.store.disk.parts
                  && k in o.store.rows && o.store.rows[k] == Row(up.md5, up.total, false)
                  && k in o.store.paths && o.store.paths[k] == up.md5)
  {
    hide PartBytes, Cleared, PublishFile;
  }

  // ---------------------------------------------------------------- downloads

  /** download_begin finds the content of the shortcut or, without one, of the file row, and opens its object. */
  lemma OpenDecided(e: Env, s: Store, c: Conn, path: string, phys: Result<string>, fileId: FileId)
    requires c.session.Some?
    ensures var session, o := c.session.value, Handle(e, s, c, DownloadBegin(path, phys, fileId));
            if KeyOf(session, path).Err? then o == Outcome(s, c, Refused(KeyOf(session, path).code))
            else
              var k, closed := KeyOf(session, path).value, c.(download := c.download.(fd := None));
              var m := if k in s.paths && s.paths[k] != "" then s.paths[k]
                       else if k in s.rows && !s.rows[k].isDir then s.rows[k].md5 else "";
              if phys.Err? then o == Outcome(s, closed, Refused(phys.code))
              else if m == "" || m !in s.disk.objects then o == Outcome(s, closed, Refused(NotFound))
              else
                var size := |ObjectBytes(s.disk, m)|;
                o == Outcome(s, c.(download := Download(fileId, size, Some(s.disk.objects[m]))), Ready(size))
  {
    hide KeyOf, ObjectBytes;
  }

  /** download_chunk answers only for the connection's own open download. It asks for the wanted length, for the
      configured one when that is 0 or does not fit into a frame, and returns all of that which is there, unless the
      read comes back short. */
  lemma ReadDecided(e: Env, s: Store, c: Conn, fileId: FileId, offset: U64, length: U32, short: nat)
    requires c.session.Some?
    ensures var dl, o := c.download, Handle(e, s, c, DownloadChunk(fileId, offset, length, short));
            && o.store == s && o.conn == c
            && if dl.fileId == [] || fileId != dl.fileId || dl.fd.None? then o.reply == Refused(BadRequest)
               else
                 var b := Content(s.disk, dl.fd.value);
                 var want := if 0 < length <= 2 * 1024 * 1024 - 64 then length else e.config.chunkSize;
                 var end := Min(Min(dl.total, |b|), offset + want);
                 if offset >= end then o.reply == Eof
                 else if short == 0 then
                   o.reply == if 40 + (end - offset) > 2 * 1024 * 1024 then Refused(PayloadTooLarge)
                              else Data(offset, b[offset..end])
                 else
                   o.reply.Data? ==> o.reply.offset == offset && offset + |o.reply.data| <= end
                                     && o.reply.data == b[offset..offset + |o.reply.data|]
  {
  }

  // ---------------------------------------------------------------- names

  /** mkdir is done exactly for a good path at which the directory can be made, and adds its row. */
  lemma MkdirDecided(e: Env, s: Store, c: Conn, path: string, phys: Result<string>, made: Result<()>)
    requires c.session.Some?
    ensures var k, o := KeyOf(c.session.value, path), Handle(e, s, c, Mkdir(path, phys, made));
            if phys.Err? then o == Outcome(s, c, Refused(phys.code))
            else if k.Err? then o == Outcome(s, c, Refused(k.code))
            else if made.Err? then o == Outcome(s, c, Refused(made.code))
            else o == Outcome(s.(rows := s.rows[k.value := Row("", 0, true)]), c, Done)
  {
    hide KeyOf;
  }

  /** rm is done exactly for a good path other than the root. */
  lemma RmDecided(e: Env, s: Store, c: Conn, path: string, phys: Result<string>, node: Node)
    requires c.session.Some?
    ensures var k, o := KeyOf(c.session.value, path), Handle(e, s, c, Rm(path, phys, node));
            && o.conn == c
            && (o.reply == if k.Err? then Refused(k.code)
                           else if k.value.path == "/" then Refused(Forbidden)
                           else if phys.Err? then Refused(phys.code) else Done)
            && (o.reply != Done ==> o.store == s)
            && (o.reply == Done ==> k.value !in o.store.rows && k.value !in o.store.paths)
  {
    hide KeyOf, DropRef;
  }

  /** rename is done exactly for good paths when the source is a file or the physical rename succeeds; then the source
      has no row and the destination is a file row: of the file's content, or of the size found at the new place. */
  lemma RenameDecided(e: Env, s: Store, c: Conn, path: string, to: string, phys: Result<string>, moved: Result<nat>)
    requires c.session.Some?
    ensures var k, l := KeyOf(c.session.value, path), KeyOf(c.session.value, to);
            var o := Handle(e, s, c, Rename(path, to, phys, moved));
            && o.conn == c
            && (o.reply == if k.Err? then Refused(k.code) else if l.Err? then Refused(l.code)
                           else if phys.Err? then Refused(phys.code)
                           else if !(k.value in s.rows && !s.rows[k.value].isDir) && moved.Err? then Refused(moved.code)
                           else Done)
            && (o.reply != Done ==> o.store == s)
            && (o.reply == Done ==>
                  o.store.rows ==
                    if k.value in s.rows && !s.rows[k.value].isDir then
                      s.rows[l.value := Row(s.rows[k.value].md5, s.rows[k.value].size, false)] - {k.value}
                    else
                      (s.rows - {k.value})[l.value := Row(if k.value in s.paths then s.paths[k.value] else "",
                                                          moved.value, false)])
  {
    hide KeyOf;
  }

  // ---------------------------------------------------------------- the size limit, over runs

  /** No file is longer than the limit, and no open upload announces more. */
  ghost predicate WithinLimit(e: Env, y: System) {
    && (forall i: nat | i < |y.store.disk.inodes| :: |y.store.disk.inodes[i]| <= e.config.maxUpload)
    && (forall i | i in y.conns && y.conns[i].upload.fd.Some? :: y.conns[i].upload.total <= e.config.maxUpload)
  }

  /** A chunk fits into a frame. */
  predicate Framed(l: Label) {
    l.Send? && l.request.UploadChunk? ==> |l.request.data| < TWO_TO_THE_32
  }

  predicate ShortFiles(d: Disk, limit: nat) {
    forall i: nat | i < |d.inodes| :: |d.inodes[i]| <= limit
  }

  lemma LongestFile(d: Disk, limit: nat, i: Inode)
    requires ShortFiles(d, limit)
    ensures |Content(d, i)| <= limit
  {
  }

  lemma BeginWithin(d: Disk, limit: nat, part: PartName, size: nat)
    requires ShortFiles(d, limit)
    ensures ShortFiles(OpenPart(d, part, size), limit)
  {
  }

  lemma ChunkWithin(d: Disk, limit: nat, up: Upload, offset: U64, data: Bytes)
    requires ShortFiles(d, limit) && WriteRefusal(up, offset, data).None? && up.total <= limit
    requires |data| < TWO_TO_THE_32
    ensures ShortFiles(WriteChunk(d, up, offset, data).0, limit)
  {
    WriteWindow(up, offset, data);
    OverlayWithin(Content(d, up.fd.value), offset, data, limit);
    hide Overlay;
  }

  lemma OverlayWithin(b: Bytes, offset: nat, data: Bytes, limit: nat)
    requires |b| <= limit && offset + |data| <= limit
    ensures |Overlay(b, offset, data)| <= limit
  {
  }

  lemma EndWithin(s: Store, limit: nat, k: Key, up: Upload)
    requires ShortFiles(s.disk, limit)
    ensures ShortFiles(FinishUpload(s, k, up).disk, limit)
  {
    LongestFile(s.disk, limit, if up.part in s.disk.parts then s.disk.parts[up.part] else 0);
    hide Release;
    var d := Cleared(s, k).disk;
    assert d.inodes == s.disk.inodes;
  }

  lemma PerformWithin(e: Env, s: Store, c: Conn, session: Session, op: Op)
    requires ShortFiles(s.disk, e.config.maxUpload)
    requires c.upload.fd.Some? ==> c.upload.total <= e.config.maxUpload
    requires op.DoChunk? ==> |op.data| < TWO_TO_THE_32
    ensures var o := Perform(e, s, c, session, op);
            && ShortFiles(o.store.disk, e.config.maxUpload)
            && (o.conn.upload.fd.Some? ==> o.conn.upload.total <= e.config.maxUpload)
  {
    hide RemovePath, RenamePath, InstantUpload, FinishUpload, FinishRefusal, QueryInstant, BeginDownload;
    hide OnDownloadChunk;
    hide OpenPart, WriteRefusal, Write, ShortFiles;
    match op
    case DoBegin(_, part, _, size, _) =>
      if part.Ok? {
        BeginWithin(s.disk, e.config.maxUpload, part.value, size);
      }
    case DoChunk(fileId, offset, data) =>
      if ChunkRefusal(c, fileId, offset, data).None? {
        OpenUpload(c.upload, offset, data);
        ChunkWithin(s.disk, e.config.maxUpload, c.upload, offset, data);
      }
    case DoEnd =>
      EndWithin(s, e.config.maxUpload, Key(session.userId, c.upload.path), c.upload);
      SameInodes(s.disk, UnlinkPart(s.disk, c.upload.part), e.config.maxUpload);
    case _ => SameInodes(s.disk, Perform(e, s, c, session, op).store.disk, e.config.maxUpload);
  }

  lemma OpenUpload(up: Upload, offset: U64, data: Bytes)
    ensures WriteRefusal(up, offset, data).None? ==> up.fd.Some?
  {
  }

  lemma SameInodes(d: Disk, r: Disk, limit: nat)
    requires ShortFiles(d, limit) && r.inodes == d.inodes
    ensures ShortFiles(r, limit)
  {
  }

  lemma StepWithinLimit(e: Env, y: System, l: Label)
    requires WithinLimit(e, y) && Framed(l)
    ensures WithinLimit(e, Next(e, y, l))
  {
    hide Perform, KeyOf, PartOf;
    if OpOf(y, l).Some? {
      PerformWithin(e, y.store, y.conns[l.id], y.conns[l.id].session.value, OpOf(y, l).value);
    }
  }

  /** Over every run whose chunks come in frames no part, no object and no open upload exceeds the limit. */
  lemma {:induction false} UploadsStayWithinLimit(e: Env, y: System, ls: seq<Label>)
    requires WithinLimit(e, y) && forall l | l in ls :: Framed(l)
    ensures WithinLimit(e, Run(e, y, ls))
    ensures var d := Run(e, y, ls).store.disk;
            && (forall p :: |PartBytes(d, p)| <= e.config.maxUpload)
            && (forall m :: |ObjectBytes(d, m)| <= e.config.maxUpload)
  {
    hide Next, Framed;
    if ls != [] {
      var init, last := ls[..|ls| - 1], ls[|ls| - 1];
      assert ls == init + [last] && last in ls && forall l | l in init :: l in ls;
      UploadsStayWithinLimit(e, y, init);
      StepWithinLimit(e, Run(e, y, init), last);
    }
  }

  lemma StartIsWithinLimit(e: Env)
    ensures WithinLimit(e, START)
  {
  }
}
