/** CloudClient (client/client.cpp): put and get against a connection of the server. */
module Client {
  import opened Basics
  import opened Disk
  import opened Store
  import opened Transfer
  import opened DiskSafety
  import opened References
  import opened Guards
  import opened Runs
  import opened Parts
  import opened Downloads
  import opened Uploads
  import opened Serving
  import opened Service
  import opened Paths
  import Protocol
  import Text
  import H = Handlers

  datatype PutResult = Instantly | Uploaded | Failed(code: ErrorCode)

  /** Requests that show users nothing. */
  lemma WorkInProgress(e: Env, y: System, r: H.Request)
    requires SystemOk(e, y) && Safe(y.store) && CollisionFreeStep(e, y, Send(OWN, r))
    requires r.InstantQuery? || r.UploadBegin? || r.UploadChunk? || r.DownloadBegin? || r.DownloadChunk?
    ensures SystemOk(e, Next(e, y, Send(OWN, r)))
    ensures Safe(Next(e, y, Send(OWN, r)).store) && Files(Next(e, y, Send(OWN, r)).store) == Files(y.store)
    ensures Next(e, y, Send(OWN, r)).store.disk.objects == y.store.disk.objects
  {
    hide H.Perform;
    SameObjects(e, y, r);
    NextOk(e, y, Send(OWN, r));
    StepOutcome(e, y, Send(OWN, r));
    assert SafeStep(e, y, Send(OWN, r)) && ChangeAt(e, y, Send(OWN, r)) == Same by {
      hide SystemOk, Next;
      KindOf(e, y, r);
    }
  }

  lemma SameObjects(e: Env, y: System, r: H.Request)
    requires r.InstantQuery? || r.UploadBegin? || r.UploadChunk? || r.DownloadBegin? || r.DownloadChunk?
    ensures Next(e, y, Send(OWN, r)).store.disk.objects == y.store.disk.objects
  {
    hide H.KeyOf, H.PartOf, H.Perform;
    if OpOf(y, Send(OWN, r)).Some? {
      KeepsObjects(e, y.store, y.conns[OWN], y.conns[OWN].session.value, OpOf(y, Send(OWN, r)).value);
    }
  }

  lemma KeepsObjects(e: Env, s: Store, c: H.Conn, session: Session, op: H.Op)
    requires op.DoQuery? || op.DoBegin? || op.DoChunk? || op.DoOpen? || op.DoRead?
    ensures H.Perform(e, s, c, session, op).store.disk.objects == s.disk.objects
  {
    hide Overlay, PartBytes, QueryInstant, BeginDownload, H.OnDownloadChunk, BeginRefusal, H.ChunkRefusal;
  }

  lemma KindOf(e: Env, y: System, r: H.Request)
    requires r.InstantQuery? || r.UploadBegin? || r.UploadChunk? || r.DownloadBegin? || r.DownloadChunk?
    ensures SafeStep(e, y, Send(OWN, r)) && ChangeAt(e, y, Send(OWN, r)) == Same
  {
    hide H.Perform, H.KeyOf;
  }

  class CloudClient {
    const conn: Connection

    /** The system as far as this client is concerned: the server's state and its own connection. */
    ghost function World(): System
      reads conn, conn.service, conn.service.redis
    {
      System(conn.service.State(), map[OWN := conn.Conn()])
    }

    ghost predicate Valid()
      reads conn, conn.service, conn.service.redis
    {
      conn.Valid()
    }

    constructor (conn: Connection)
      requires conn.Valid()
      ensures Valid() && this.conn == conn
    {
      this.conn := conn;
    }

    /** Sends a request and waits for its answer. */
    method Request(r: H.Request) returns (reply: H.Reply)
      requires Valid() && (r.UploadChunk? ==> |r.data| < TWO_TO_THE_32)
      modifies conn, conn.service, conn.service.redis
      ensures Valid()
      ensures World() == Next(conn.service.env, old(World()), Send(OWN, r))
      ensures reply == H.Handle(conn.service.env, old(World()).store, old(World()).conns[OWN], r).reply
    {
      hide H.Handle, Connection.Valid, TransferService.Valid;
      reply := conn.Serve(r);
      assert World().conns == old(World()).conns[OWN := conn.Conn()];
    }

    /** One chunk of the loop of put. */
    method SendOne(j: Job, fileId: FileId, ghost kept: Bytes, sent: nat, ghost files: map<Key, Bytes>) returns (n: nat)
      requires Valid() && 1 <= j.chunk < 0x100_0000 && fileId != []
      requires |kept| <= sent < |j.content| < TWO_TO_THE_63
      requires Uploading(conn.service.env, World(), j, fileId, Grown(kept, j.content, sent), files)
      modifies conn, conn.service, conn.service.redis
      ensures Valid() && 0 < n <= |j.content| - sent
      ensures Uploading(conn.service.env, World(), j, fileId, Grown(kept, j.content, sent + n), files)
    {
      hide Uploading, Grown, H.Handle, Next, Connection.Valid, TransferService.Valid;
      n := Min(j.chunk, |j.content| - sent);
      ChunkRequest(conn.service.env, World(), j, fileId, kept, sent, n, files);
      var reply := Request(H.UploadChunk(fileId, sent, j.content[sent..sent + n]));
    }

    /** The loop of put: the file from where the server's part ends, in chunks. */
    method SendChunks(j: Job, fileId: FileId, offset: nat, ghost kept: Bytes, ghost files: map<Key, Bytes>)
      requires Valid() && JobOk(conn.service.env, j) && fileId != [] && offset == |kept| <= |j.content|
      requires Uploading(conn.service.env, World(), j, fileId, kept, files)
      modifies conn, conn.service, conn.service.redis
      ensures Valid()
      ensures Uploading(conn.service.env, World(), j, fileId, Grown(kept, j.content, |j.content|), files)
    {
      hide Uploading, JobOk, Grown, Connection.Valid, TransferService.Valid;
      JobChunk(conn.service.env, j);
      NothingGrown(kept, j.content);
      var sent := offset;
      while sent < |j.content|
        invariant |kept| <= sent <= |j.content| && Valid()
        invariant Uploading(conn.service.env, World(), j, fileId, Grown(kept, j.content, sent), files)
      {
        var n := SendOne(j, fileId, kept, sent, files);
        sent := sent + n;
      }
    }

    /** The second half of put: upload_begin, the chunks, upload_end. */
    method Upload(j: Job, fileId: FileId) returns (result: PutResult)
      requires Valid() && JobOk(conn.service.env, j) && fileId != [] && NoClash(conn.service.env, World().store, j)
      requires ReadyFor(conn.service.env, World(), j) && j.md5 !in World().store.disk.objects
      modifies conn, conn.service, conn.service.redis
      ensures Valid() && ReadyFor(conn.service.env, World(), j)
      ensures var prefix := old(Kept(World().store.disk, j)) <= j.content;
              && result == (if prefix then Uploaded else Failed(Unprocessable))
              && Files(World().store) ==
                  if prefix then old(Files(World().store))[j.key := j.content] else old(Files(World().store))
    {
      hide JobOk, ReadyFor, Uploading, NoClash, Kept, H.Handle, Next, Connection.Valid, TransferService.Valid, Grown;
      hide Files;
      ghost var kept, files := Kept(World().store.disk, j), Files(World().store);
      ClashFree(conn.service.env, World().store, j);
      BeginRequest(conn.service.env, World(), j, fileId);
      var begun := Request(BeginOf(j, fileId));
      SendChunks(j, fileId, begun.received, kept, files);
      EndRequest(conn.service.env, World(), j, fileId, kept, files);
      var reply := Request(H.UploadEnd);
      return if reply.Refused? then Failed(reply.code) else Uploaded;
    }

    /** put, when neither the stored content of that md5 nor what the part will hold collides with the content:
        the content's md5 decides between a reference and an upload. `destExists` is what the server's
        lstat finds in the user tree; `fileId` is the server's random name for the upload. */
    method Put(j: Job, destExists: bool, overwrite: bool, fileId: FileId) returns (result: PutResult)
      requires Valid() && JobOk(conn.service.env, j) && fileId != [] && NoClash(conn.service.env, World().store, j)
      requires ReadyFor(conn.service.env, World(), j)
      modifies conn, conn.service, conn.service.redis
      ensures Valid()
      ensures result == PutOutcome(old(World().store), j, destExists, overwrite)
      ensures Safe(World().store) <==> (result.Instantly? ==> KeepsClaimed(old(World().store), j.key, j.md5))
      ensures Safe(World().store) ==> Files(World().store) == PutShows(old(Files(World().store)), j, result)
    {
      hide JobOk, ReadyFor, NoClash, Kept, H.Handle, Next, Connection.Valid, TransferService.Valid, Files, HonestClaim;
      hide Safe, KeepsClaimed;
      ghost var e, y := conn.service.env, World();
      JobChunk(e, j);
      QueryRequest(e, y, j);
      var answer := Request(H.InstantQuery(j.md5, |j.content|));
      if answer.Hit? {
        var claim := HonestClaim(conn.service.env, j.md5, j.content, answer.challenge);
        InstantOutcome(e, y, World(), j, destExists, overwrite);
        var reply := Request(ClaimOf(j, destExists, overwrite, claim));
        return if reply.Refused? then Failed(reply.code) else Instantly;
      }
      result := Upload(j, fileId);
      ReadyIsSafe(e, World(), j);
    }

    /** get: chunk after chunk until all of the size is there; `phys` is PathGuard's answer for the path. */
    method Get(path: string, phys: Result<string>, fileId: FileId, ghost k: Key) returns (r: Result<Bytes>)
      requires Valid() && SystemOk(conn.service.env, World()) && Safe(World().store)
      requires conn.session.Some? && H.KeyOf(conn.session.value, path) == Ok(k) && fileId != []
      requires 1 <= conn.service.env.config.chunkSize <= Protocol.MAX_FRAME_SIZE - 64
      requires k in Files(World().store) ==> |Files(World().store)[k]| < TWO_TO_THE_64
      modifies conn, conn.service, conn.service.redis
      ensures Valid() && World().store == old(World().store)
      ensures r == if phys.Err? then Err(phys.code)
                   else if k in Files(World().store) then Ok(Files(World().store)[k]) else Err(NotFound)
    {
      hide H.Handle, H.KeyOf, Next, Connection.Valid, TransferService.Valid, SystemOk, Safe, Files;
      ghost var e, y := conn.service.env, World();
      OpenRequest(e, y, path, k, phys, fileId);
      var reply := Request(H.DownloadBegin(path, phys, fileId));
      if reply.Refused? {
        return Err(reply.code);
      }
      ghost var content := Files(y.store)[k];
      var size, chunk := reply.total, conn.service.env.config.chunkSize;
      var got: Bytes := [];
      while |got| < size
        invariant Valid() && Reading(World(), y.store, fileId, content) && got <= content
      {
        var short: nat := *;
        NextChunk(e, World(), y.store, fileId, content, got, chunk, short);
        var answer := Request(H.DownloadChunk(fileId, |got|, chunk, short));
        got := got + answer.data;
      }
      assert got == content;
      return Ok(got);
    }
  }

  /** The client's part holds `bytes`, users see `files`, and the content is not stored yet. */
  ghost predicate Uploading(e: Env, y: System, j: Job, fileId: FileId, bytes: Bytes, files: map<Key, Bytes>) {
    && Quiet(e, y) && Holds(y, OWN, j, fileId, bytes) && Safe(y.store) && Files(y.store) == files
    && j.md5 !in y.store.disk.objects
  }

  lemma JobChunk(e: Env, j: Job)
    requires JobOk(e, j)
    ensures 1 <= j.chunk < 0x100_0000 && |j.content| < TWO_TO_THE_63
  {
  }

  lemma ChunkRequest(e: Env, y: System, j: Job, fileId: FileId, kept: Bytes, sent: nat, n: nat, files: map<Key, Bytes>)
    requires fileId != [] && |kept| <= sent && n > 0 && sent + n <= |j.content| < TWO_TO_THE_63
    requires Uploading(e, y, j, fileId, Grown(kept, j.content, sent), files)
    ensures var z := Next(e, y, Send(OWN, H.UploadChunk(fileId, sent, j.content[sent..sent + n])));
            Uploading(e, z, j, fileId, Grown(kept, j.content, sent + n), files)
  {
    var data := j.content[sent..sent + n];
    assert |data| == n && data != [];
    hide Holds, PartsApart, SystemOk, Safe, Files, H.Handle, Next, Grown;
    GrowsBy(kept, j.content, sent, n);
    ChunkHolds(e, y, OWN, j, fileId, Grown(kept, j.content, sent), data);
    WorkInProgress(e, y, H.UploadChunk(fileId, sent, data));
  }

  /** What the store holds under the content's md5, and what the part holds when everything has been sent, are the
      content or have another md5. */
  ghost predicate NoClash(e: Env, s: Store, j: Job) {
    && (j.md5 in s.disk.objects ==> NoCollision(e, ObjectBytes(s.disk, j.md5), j.content))
    && NoCollision(e, Grown(Kept(s.disk, j), j.content, |j.content|), j.content)
  }

  lemma ClashFree(e: Env, s: Store, j: Job)
    requires NoClash(e, s, j)
    ensures NoCollision(e, Grown(Kept(s.disk, j), j.content, |j.content|), j.content)
  {
  }

  /** The client is logged in and every file is readable, in a state as every reachable one is. */
  ghost predicate ReadyFor(e: Env, y: System, j: Job) {
    Quiet(e, y) && OWN in y.conns && y.conns[OWN].session == Some(j.session) && Safe(y.store)
  }

  /** What put comes to, from the state it starts in. */
  function PutOutcome(s: Store, j: Job, destExists: bool, overwrite: bool): PutResult {
    if j.md5 in s.disk.objects then
      if (IsFile(s, j.key) || destExists) && !overwrite then Failed(Conflict) else Instantly
    else if Kept(s.disk, j) <= j.content then Uploaded
    else Failed(Unprocessable)
  }

  /** What users see after a put that came to `result`, if no file was lost on the way. */
  function PutShows(files: map<Key, Bytes>, j: Job, result: PutResult): map<Key, Bytes> {
    if result.Failed? then files else files[j.key := j.content]
  }

  /** A put without overwrite leaves the file at its path alone exactly when its content is stored already or the
      upload fails: upload_begin and upload_end know no overwrite flag. */
  lemma NoOverwriteProtects(e: Env, s: Store, j: Job, destExists: bool)
    requires DiskOk(e, s.disk) && Safe(s) && e.hash(j.content) == j.md5 && j.key in Files(s)
    ensures var result := PutOutcome(s, j, destExists, false);
            PutShows(Files(s), j, result)[j.key] == Files(s)[j.key] <==> j.md5 in s.disk.objects || result.Failed?
  {
    assert KeyOk(s, j.key);
  }

  lemma ReadyIsSafe(e: Env, y: System, j: Job)
    requires ReadyFor(e, y, j)
    ensures Safe(y.store)
  {
  }

  lemma BeginRequest(e: Env, y: System, j: Job, fileId: FileId)
    requires ReadyFor(e, y, j) && JobOk(e, j) && j.md5 !in y.store.disk.objects
    ensures |Kept(y.store.disk, j)| <= |j.content| && OWN in y.conns
    ensures H.Handle(e, y.store, y.conns[OWN], BeginOf(j, fileId)).reply == H.Begun(|Kept(y.store.disk, j)|)
    ensures Uploading(e, Next(e, y, Send(OWN, BeginOf(j, fileId))), j, fileId, Kept(y.store.disk, j), Files(y.store))
  {
    hide JobOk, PartsApart, SystemOk, Holds, Kept, Safe, Files, Next, H.Handle;
    KeptFits(y.store.disk, j);
    BeginHolds(e, y, OWN, j, fileId);
    WorkInProgress(e, y, BeginOf(j, fileId));
  }

  /** The end of an upload whose part holds `kept` and the content from there on. */
  lemma EndRequest(e: Env, y: System, j: Job, fileId: FileId, kept: Bytes, files: map<Key, Bytes>)
    requires JobOk(e, j) && |kept| <= |j.content| && NoCollision(e, Grown(kept, j.content, |j.content|), j.content)
    requires Uploading(e, y, j, fileId, Grown(kept, j.content, |j.content|), files)
    ensures OWN in y.conns
    ensures var z, reply := Next(e, y, Send(OWN, H.UploadEnd)), H.Handle(e, y.store, y.conns[OWN], H.UploadEnd).reply;
            && ReadyFor(e, z, j)
            && reply == (if kept <= j.content then H.Done else H.Refused(Unprocessable))
            && Files(z.store) == if kept <= j.content then files[j.key := j.content] else files
  {
    hide PartsApart, Holds, Safe, Files, Next, H.Handle, Grown, ChangeAt, JobOk, SystemOk, NoCollision;
    hide CollisionFreeStep;
    var bytes := Grown(kept, j.content, |j.content|);
    var l := Send(OWN, H.UploadEnd);
    GrownIsContent(kept, j.content);
    HoldsConn(y, OWN, j, fileId, bytes);
    EndIsCollisionFree(e, y, j, fileId, bytes);
    EndOutcome(e, y, OWN, j, fileId, bytes);
    StepOutcome(e, y, l);
    EndIsSafe(e, y, OWN);
    EndKeepsSession(e, y, j, fileId, bytes);
  }

  lemma EndIsCollisionFree(e: Env, y: System, j: Job, fileId: FileId, bytes: Bytes)
    requires Holds(y, OWN, j, fileId, bytes) && j.md5 !in y.store.disk.objects
    ensures CollisionFreeStep(e, y, Send(OWN, H.UploadEnd))
  {
    hide FinishRefusal;
  }

  lemma EndKeepsSession(e: Env, y: System, j: Job, fileId: FileId, bytes: Bytes)
    requires Holds(y, OWN, j, fileId, bytes)
    ensures var z := Next(e, y, Send(OWN, H.UploadEnd)); OWN in z.conns && z.conns[OWN].session == Some(j.session)
  {
    hide FinishUpload, FinishRefusal, AfterRefusedFinish;
  }

  // ---------------------------------------------------------------- instant upload

  /** The challenge the server hands out for the job's content. */
  function ChallengeOf(e: Env, j: Job): (c: Challenge)
    requires |j.content| < TWO_TO_THE_63
    ensures c.offset + c.len <= |j.content|
  {
    ChallengeInRange(e, j.session.token, j.md5, |j.content|);
    ChallengeFor(e, j.session.token, j.md5, |j.content|)
  }

  lemma StoredIsContent(e: Env, s: Store, j: Job)
    requires DiskOk(e, s.disk) && e.hash(j.content) == j.md5 && NoClash(e, s, j) && j.md5 in s.disk.objects
    ensures ObjectBytes(s.disk, j.md5) == j.content
  {
  }

  /** instant_query hits exactly when the content is stored. */
  lemma QueryAnswer(e: Env, s: Store, c: H.Conn, j: Job)
    requires c.session == Some(j.session) && |j.md5| == 32 && |j.content| < TWO_TO_THE_63
    requires j.md5 in s.disk.objects ==> ObjectBytes(s.disk, j.md5) == j.content
    ensures H.Handle(e, s, c, H.InstantQuery(j.md5, |j.content|)) ==
              if j.md5 in s.disk.objects
              then H.Outcome(IssueChallenge(s, j.session.token, j.md5, ChallengeOf(e, j)), c, H.Hit(ChallengeOf(e, j)))
              else H.Outcome(s, c, H.Miss)
  {
    hide ChallengeFor;
    if j.md5 in s.disk.objects {
      HonestClaimPasses(e, s, j.session.token, j.md5, j.content);
    }
  }

  lemma QueryRequest(e: Env, y: System, j: Job)
    requires ReadyFor(e, y, j) && JobOk(e, j) && NoClash(e, y.store, j)
    ensures OWN in y.conns && |j.content| < TWO_TO_THE_63
    ensures var r := H.InstantQuery(j.md5, |j.content|);
            var z, reply := Next(e, y, Send(OWN, r)), H.Handle(e, y.store, y.conns[OWN], r).reply;
            && ReadyFor(e, z, j) && Files(z.store) == Files(y.store)
            && reply == (if j.md5 in y.store.disk.objects then H.Hit(ChallengeOf(e, j)) else H.Miss)
            && z.conns == y.conns
            && z.store == (if j.md5 in y.store.disk.objects
                           then IssueChallenge(y.store, j.session.token, j.md5, ChallengeOf(e, j)) else y.store)
  {
    hide H.Handle, SystemOk, Safe, Files, DiskOk, JobOk, ChallengeOf, NoClash, PartsApart;
    JobChunk(e, j);
    JobHash(e, j);
    if j.md5 in y.store.disk.objects {
      SystemFiles(e, y);
      StoredIsContent(e, y.store, j);
    }
    QueryAnswer(e, y.store, y.conns[OWN], j);
    WorkInProgress(e, y, H.InstantQuery(j.md5, |j.content|));
    assert Next(e, y, Send(OWN, H.InstantQuery(j.md5, |j.content|))).conns == y.conns;
  }

  lemma SystemFiles(e: Env, y: System)
    requires SystemOk(e, y)
    ensures DiskOk(e, y.store.disk)
  {
  }

  /** The claim of a client that has the content. */
  function ClaimOf(j: Job, destExists: bool, overwrite: bool, claim: Claim): H.Request {
    H.Instant(j.path, Ok(j.phys), destExists, claim, overwrite)
  }

  /** The instant upload after a hit: it conflicts, or it refers to the stored content, safely exactly under G1. */
  lemma InstantAnswer(e: Env, s: Store, c: H.Conn, j: Job, destExists: bool, overwrite: bool)
    requires DiskOk(e, s.disk) && Safe(s) && JobOk(e, j) && c.session == Some(j.session)
    requires j.md5 in s.disk.objects && ObjectBytes(s.disk, j.md5) == j.content && |j.content| < TWO_TO_THE_63
    ensures var issued := IssueChallenge(s, j.session.token, j.md5, ChallengeOf(e, j));
            var o := H.Handle(e, issued, c,
                ClaimOf(j, destExists, overwrite, HonestClaim(e, j.md5, j.content, ChallengeOf(e, j))));
            && o.reply == (if (IsFile(s, j.key) || destExists) && !overwrite then H.Refused(Conflict) else H.Done)
            && (Safe(o.store) <==> (o.reply == H.Done ==> KeepsClaimed(s, j.key, j.md5)))
            && (Safe(o.store) ==>
                  Files(o.store) == if o.reply == H.Done then Files(s)[j.key := j.content] else Files(s))
            && (o.reply == H.Done ==>
                  o.store == AddRef(Cleared(SpendChallenge(issued, j.session.token, j.md5), j.key), j.key, j.md5,
                      |j.content|))
  {
    hide Safe, Files, DiskOk, ClaimRefusal, QueryInstant, ChallengeFor, HonestClaim, Cleared, AddRef, H.PartOf, Exact;
    var token, ch := j.session.token, ChallengeOf(e, j);
    HonestClaimPasses(e, s, token, j.md5, j.content);
    var issued, claim := IssueChallenge(s, token, j.md5, ch), HonestClaim(e, j.md5, j.content, ch);
    assert claim.md5 == j.md5 && claim.size == |j.content| by { HonestMd5(e, j, ch); }
    ChallengeShowsNothing(s, token, j.md5, ch);
    assert Parsed(e, j, destExists, overwrite, claim);
    InstantUploadOk(e, issued, token, j.key, claim, destExists, overwrite);
  }

  /** The same at the level of requests. */
  lemma InstantOutcome(e: Env, y: System, z: System, j: Job, destExists: bool, overwrite: bool)
    requires ReadyFor(e, y, j) && JobOk(e, j) && NoClash(e, y.store, j) && j.md5 in y.store.disk.objects
    requires |j.content| < TWO_TO_THE_63 && z.conns == y.conns
    requires z.store == IssueChallenge(y.store, j.session.token, j.md5, ChallengeOf(e, j))
    ensures OWN in z.conns
    ensures var r := ClaimOf(j, destExists, overwrite, HonestClaim(e, j.md5, j.content, ChallengeOf(e, j)));
            var w, reply := Next(e, z, Send(OWN, r)), H.Handle(e, z.store, z.conns[OWN], r).reply;
            && reply == (if (IsFile(y.store, j.key) || destExists) && !overwrite then H.Refused(Conflict) else H.Done)
            && (Safe(w.store) <==> (reply == H.Done ==> KeepsClaimed(y.store, j.key, j.md5)))
            && (Safe(w.store) ==>
                  Files(w.store) == if reply == H.Done then Files(y.store)[j.key := j.content] else Files(y.store))
  {
    hide H.Handle, SystemOk, Safe, Files, DiskOk, JobOk, ChallengeOf, NoClash, HonestClaim, KeepsClaimed, ClaimOf;
    hide IssueChallenge;
    SystemFiles(e, y);
    JobHash(e, j);
    StoredIsContent(e, y.store, j);
    InstantAnswer(e, y.store, y.conns[OWN], j, destExists, overwrite);
  }

  lemma JobHash(e: Env, j: Job)
    requires JobOk(e, j)
    ensures e.hash(j.content) == j.md5 && |j.md5| == 32
  {
  }

  predicate Parsed(e: Env, j: Job, destExists: bool, overwrite: bool, claim: Claim) {
    H.Parse(j.session, ClaimOf(j, destExists, overwrite, claim)) ==
      Ok(H.DoInstant(j.key, Ok(j.phys), destExists, claim, overwrite))
  }

  lemma HonestMd5(e: Env, j: Job, c: Challenge)
    requires c.offset + c.len <= |j.content| < TWO_TO_THE_64
    ensures var claim := HonestClaim(e, j.md5, j.content, c); claim.md5 == j.md5 && claim.size == |j.content|
  {
  }

  // ---------------------------------------------------------------- download

  lemma OpenRequest(e: Env, y: System, path: string, k: Key, phys: Result<string>, fileId: FileId)
    requires Safe(y.store) && OWN in y.conns && y.conns[OWN].session.Some?
    requires H.KeyOf(y.conns[OWN].session.value, path) == Ok(k)
    ensures var r := H.DownloadBegin(path, phys, fileId);
            var z, reply := Next(e, y, Send(OWN, r)), H.Handle(e, y.store, y.conns[OWN], r).reply;
            && z.store == y.store
            && (if phys.Err? then reply == H.Refused(phys.code)
                else if k in Files(y.store) then
                  && reply == H.Ready(|Files(y.store)[k]|)
                  && Reading(z, y.store, fileId, Files(y.store)[k])
                else reply == H.Refused(NotFound))
  {
    OpenTouchesNothing(e, y.store, y.conns[OWN], path, phys, fileId);
    if phys.Ok? {
      RequestFindsFile(e, y.store, y.conns[OWN], path, k, phys.value, fileId);
    } else {
      OpenRefused(e, y.store, y.conns[OWN], path, k, phys.code, fileId);
    }
    hide H.Handle, Files, Safe, H.KeyOf;
  }

  lemma OpenTouchesNothing(e: Env, s: Store, c: H.Conn, path: string, phys: Result<string>, fileId: FileId)
    ensures var o := H.Handle(e, s, c, H.DownloadBegin(path, phys, fileId));
            o.store == s && o.conn.session == c.session
  {
    hide H.KeyOf, BeginDownload;
  }

  /** The client's download reads `content`, in the state `s` of the store. */
  ghost predicate Reading(y: System, s: Store, fileId: FileId, content: Bytes) {
    && y.store == s && OWN in y.conns && y.conns[OWN].session.Some?
    && Serves(s.disk, y.conns[OWN].download, fileId, content)
  }

  lemma NextChunk(e: Env, y: System, s: Store, fileId: FileId, content: Bytes, got: Bytes, chunk: U32, short: nat)
    requires Reading(y, s, fileId, content) && fileId != [] && got < content && |content| < TWO_TO_THE_64
    requires 1 <= e.config.chunkSize <= Protocol.MAX_FRAME_SIZE - 64
    ensures var r := H.DownloadChunk(fileId, |got|, chunk, short);
            var reply := H.Handle(e, y.store, y.conns[OWN], r).reply;
            && Reading(Next(e, y, Send(OWN, r)), s, fileId, content)
            && reply.Data? && reply.data != [] && got + reply.data <= content
  {
    ChunkIsSlice(e, s, y.conns[OWN], fileId, content, |got|, chunk, short);
    hide H.OnDownloadChunk;
    var data := H.OnDownloadChunk(e, s, y.conns[OWN], fileId, |got|, chunk, short).data;
    assert got + data == content[..|got| + |data|];
  }

  // ---------------------------------------------------------------- a fresh server

  /** The put of a content to a name in the user's root. */
  function PutAtRoot(e: Env, session: Session, name: string, content: Bytes, chunk: U32): Job {
    Job(session, name, name, Key(session.userId, "/" + name), PartName(session.username, e.hash(content), name),
        e.hash(content), content, chunk)
  }

  /** On a fresh server every user who logs in can put every content of legal size under every clean name: the
      premises of Put can be met. */
  lemma FreshServerIsReady(e: Env, session: Session, name: string, content: Bytes, chunk: U32)
    requires Clean(name) && |e.hash(content)| == 32 && |content| <= e.config.maxUpload && |content| < TWO_TO_THE_63
    requires 1 <= chunk <= Protocol.MAX_FRAME_SIZE - 40
    ensures var j, y := PutAtRoot(e, session, name, content, chunk),
              Next(e, Next(e, START, Accept(OWN)), Send(OWN, H.Login(session)));
            JobOk(e, j) && ReadyFor(e, y, j)
  {
    NameAtRoot(e, session, name, content, chunk);
    hide JobOk, SystemOk, Safe, Exact;
    StartIsExact(e);
    Reconnect(e, START, OWN, session);
  }

  lemma NameAtRoot(e: Env, session: Session, name: string, content: Bytes, chunk: U32)
    requires Clean(name) && |e.hash(content)| == 32 && |content| <= e.config.maxUpload && |content| < TWO_TO_THE_63
    requires 1 <= chunk <= Protocol.MAX_FRAME_SIZE - 40
    ensures JobOk(e, PutAtRoot(e, session, name, content, chunk))
  {
    hide Normalize, Text.BaseName, Clean;
    NormalName(name);
    Text.BaseNameIs("", name);
  }

  lemma NormalName(name: string)
    requires Clean(name)
    ensures Normalize(name) == Ok(name) && '/' !in name
  {
    hide Normalize;
    NormalizeJoin([name]);
    assert Text.Join([name], '/') == name;
  }
}
