/** Uploads that are interrupted and resumed while other connections keep working (CloudClient::put in
    client/client.cpp against src/transfer.cpp). */
module Uploads {
  import opened Basics
  import opened Disk
  import opened Store
  import opened Transfer
  import opened Handlers
  import opened DiskSafety
  import opened References
  import opened Guards
  import opened Runs
  import opened Parts
  import Protocol

  // ---------------------------------------------------------------- other connections

  /** What every reachable state is. */
  ghost predicate Quiet(e: Env, y: System) {
    SystemOk(e, y) && PartsApart(y.store.disk)
  }

  predicate ByOthers(l: Label, id: int) {
    l.Accept? || l.Close? || l.Send? ==> l.id != id
  }

  ghost predicate SameConn(y: System, z: System, id: int) {
    (id in y.conns <==> id in z.conns) && (id in y.conns ==> z.conns[id] == y.conns[id])
  }

  lemma OthersKeepConn(e: Env, y: System, l: Label, id: int)
    requires ByOthers(l, id)
    ensures SameConn(y, Next(e, y, l), id)
  {
    hide Handle;
  }

  lemma QuietStep(e: Env, y: System, l: Label)
    requires Quiet(e, y) && CollisionFreeStep(e, y, l)
    ensures Quiet(e, Next(e, y, l))
  {
    hide Next, SystemOk, PartsApart, CollisionFreeStep;
    NextOk(e, y, l);
    StepKeepsApart(e, y, l);
  }

  /** Steps of others, free of collisions, that leave the part alone. */
  ghost predicate LeftAlone(e: Env, y: System, ls: seq<Label>, id: int, p: PartName) {
    forall n | 0 <= n < |ls| ::
      ByOthers(ls[n], id) && CollisionFreeStep(e, Run(e, y, ls[..n]), ls[n]) && LeavesPart(Run(e, y, ls[..n]), ls[n], p)
  }

  ghost predicate SamePart(y: System, z: System, id: int, p: PartName) {
    KeepsPart(y.store.disk, p, z.store.disk) && SameConn(y, z, id)
  }

  lemma SamePartTrans(x: System, y: System, z: System, id: int, p: PartName)
    requires SamePart(x, y, id, p) && SamePart(y, z, id, p)
    ensures SamePart(x, z, id, p)
  {
  }

  lemma {:induction false} OtherSteps(e: Env, y: System, ls: seq<Label>, id: int, p: PartName)
    requires Quiet(e, y) && LeftAlone(e, y, ls, id, p)
    ensures Quiet(e, Run(e, y, ls)) && SamePart(y, Run(e, y, ls), id, p)
  {
    hide Next, CollisionFreeStep, LeavesPart, SystemOk, PartsApart;
    if ls != [] {
      var init, last := ls[..|ls| - 1], ls[|ls| - 1];
      forall n | 0 <= n < |init|
        ensures ByOthers(init[n], id) && CollisionFreeStep(e, Run(e, y, init[..n]), init[n])
        ensures LeavesPart(Run(e, y, init[..n]), init[n], p)
      {
        assert init[..n] == ls[..n] && init[n] == ls[n];
      }
      assert ls[..|init|] == init;
      OtherSteps(e, y, init, id, p);
      var z := Run(e, y, init);
      QuietStep(e, z, last);
      StepKeepsPart(e, z, last, p);
      OthersKeepConn(e, z, last, id);
      SamePartTrans(y, z, Next(e, z, last), id, p);
    }
  }

  // ---------------------------------------------------------------- one put

  /** What a put is about; the client's paths are resolved for it as `key`, `part` and `phys`. */
  datatype Job = Job(session: Session, path: string, phys: string, key: Key, part: PartName,
                     md5: Md5, content: Bytes, chunk: U32)

  ghost predicate JobOk(e: Env, j: Job) {
    && KeyOf(j.session, j.path) == Ok(j.key) && PartOf(j.session, Ok(j.phys), j.md5) == Ok(j.part)
    && e.hash(j.content) == j.md5 && |j.md5| == 32
    && |j.content| <= e.config.maxUpload && |j.content| < TWO_TO_THE_63
    && 1 <= j.chunk <= Protocol.MAX_FRAME_SIZE - 40
  }

  /** Connection `id` has the job's part open, and the part holds `bytes`. */
  ghost predicate Holds(y: System, id: int, j: Job, fileId: FileId, bytes: Bytes) {
    && id in y.conns && y.conns[id].session == Some(j.session)
    && j.part in y.store.disk.parts && |bytes| <= |j.content| < TWO_TO_THE_63
    && y.conns[id].upload == Upload(fileId, j.key.path, j.part, j.md5, |j.content|, |bytes|,
                                    Some(y.store.disk.parts[j.part]))
    && PartBytes(y.store.disk, j.part) == bytes
  }

  lemma HoldsConn(y: System, id: int, j: Job, fileId: FileId, bytes: Bytes)
    requires Holds(y, id, j, fileId, bytes)
    ensures id in y.conns && j.part in y.store.disk.parts && PartBytes(y.store.disk, j.part) == bytes
    ensures y.conns[id].session == Some(j.session)
    ensures y.conns[id].upload.part == j.part && y.conns[id].upload.path == j.key.path
  {
  }

  function BeginOf(j: Job, fileId: FileId): (r: Request)
    ensures r.UploadBegin?
  {
    UploadBegin(j.path, Ok(j.phys), j.md5, |j.content| % TWO_TO_THE_64, fileId)
  }

  /** What an upload that begins finds in the part: it is emptied when it is longer than the content. */
  function Kept(d: Disk, j: Job): (r: Bytes)
    ensures |r| <= |j.content|
  {
    if |PartBytes(d, j.part)| <= |j.content| then PartBytes(d, j.part) else []
  }

  lemma BeginHolds(e: Env, y: System, id: int, j: Job, fileId: FileId)
    requires Quiet(e, y) && JobOk(e, j)
    requires id in y.conns && y.conns[id].session == Some(j.session)
    ensures var z := Next(e, y, Send(id, BeginOf(j, fileId)));
            && Quiet(e, z) && Holds(z, id, j, fileId, Kept(y.store.disk, j))
            && Handle(e, y.store, y.conns[id], BeginOf(j, fileId)).reply == Begun(|Kept(y.store.disk, j)|)
  {
    hide Handle, Kept, PartBytes, BeginUpload, SystemOk, PartsApart, Holds, BeginOf, JobOk;
    JobBounds(e, j);
    OwnBegin(e, y, id, j, fileId);
    var (r, up) := BeginUpload(y.store.disk, j.part, j.key.path, j.md5, |j.content|, fileId);
    var z := System(y.store.(disk := r), y.conns[id := y.conns[id].(upload := up)]);
    assert z == Next(e, y, Send(id, BeginOf(j, fileId)));
    hide Next;
    BeginResult(e, y, id, j, fileId);
    assert SystemOk(e, z) by {
      assert !BeginOf(j, fileId).UploadEnd?;
      NextOk(e, y, Send(id, BeginOf(j, fileId)));
    }
  }

  /** The state in which an upload that begins leaves the system. */
  lemma BeginResult(e: Env, y: System, id: int, j: Job, fileId: FileId)
    requires Quiet(e, y) && |j.content| < TWO_TO_THE_63
    requires id in y.conns && y.conns[id].session == Some(j.session)
    ensures var (r, up) := BeginUpload(y.store.disk, j.part, j.key.path, j.md5, |j.content|, fileId);
            var z := System(y.store.(disk := r), y.conns[id := y.conns[id].(upload := up)]);
            && PartsApart(z.store.disk) && Holds(z, id, j, fileId, Kept(y.store.disk, j))
            && up.received == |Kept(y.store.disk, j)|
  {
    var d := y.store.disk;
    OpenKeeps(d, j, fileId);
    hide BeginUpload, Kept, PartBytes;
    var (r, up) := BeginUpload(d, j.part, j.key.path, j.md5, |j.content|, fileId);
    assert |Kept(d, j)| <= |j.content| by { KeptFits(d, j); }
    assert PartBytes(r, j.part) == Kept(d, j);
  }

  lemma KeptFits(d: Disk, j: Job)
    ensures |Kept(d, j)| <= |j.content|
  {
  }

  lemma OwnBegin(e: Env, y: System, id: int, j: Job, fileId: FileId)
    requires JobOk(e, j) && id in y.conns && y.conns[id].session == Some(j.session)
    ensures var c := y.conns[id];
            var (r, up) := BeginUpload(y.store.disk, j.part, j.key.path, j.md5, |j.content|, fileId);
            Handle(e, y.store, c, BeginOf(j, fileId)) ==
              Outcome(y.store.(disk := r), c.(upload := up), Begun(up.received))
  {
    hide KeyOf, PartOf, OpenPart;
  }

  lemma OpenKeeps(d: Disk, j: Job, fileId: FileId)
    requires PartsApart(d) && (forall p | p in d.parts :: d.parts[p] < |d.inodes|) && |j.content| < TWO_TO_THE_63
    ensures var (r, up) := BeginUpload(d, j.part, j.key.path, j.md5, |j.content|, fileId);
            && PartsApart(r) && j.part in r.parts && PartBytes(r, j.part) == Kept(d, j)
            && up == Upload(fileId, j.key.path, j.part, j.md5, |j.content|, |Kept(d, j)|, Some(r.parts[j.part]))
            && (r.parts[j.part] >= |d.inodes| || (j.part in d.parts && r.parts[j.part] == d.parts[j.part]))
  {
  }

  /** A chunk sent at the end of the part lengthens it by the chunk. */
  lemma ChunkHolds(e: Env, y: System, id: int, j: Job, fileId: FileId, bytes: Bytes, data: Bytes)
    requires Quiet(e, y) && Holds(y, id, j, fileId, bytes) && fileId != []
    requires data != [] && |bytes| + |data| <= |j.content|
    ensures var z := Next(e, y, Send(id, UploadChunk(fileId, |bytes|, data)));
            Quiet(e, z) && Holds(z, id, j, fileId, bytes + data)
  {
    hide Handle, SystemOk, PartsApart, Write, Holds;
    HoldsConn(y, id, j, fileId, bytes);
    OwnChunk(e, y, id, j, fileId, bytes, data);
    PartInode(e, y, j.part);
    ChunkResult(y, id, j, fileId, bytes, data);
    assert !UploadChunk(fileId, |bytes|, data).UploadEnd?;
    NextOk(e, y, Send(id, UploadChunk(fileId, |bytes|, data)));
  }

  lemma PartInode(e: Env, y: System, p: PartName)
    requires SystemOk(e, y) && p in y.store.disk.parts
    ensures y.store.disk.parts[p] < |y.store.disk.inodes|
  {
  }

  /** The state in which a chunk leaves the system. */
  lemma ChunkResult(y: System, id: int, j: Job, fileId: FileId, bytes: Bytes, data: Bytes)
    requires PartsApart(y.store.disk) && Holds(y, id, j, fileId, bytes)
    requires y.store.disk.parts[j.part] < |y.store.disk.inodes| && |bytes| + |data| <= |j.content|
    ensures var c := y.conns[id];
            var z := System(y.store.(disk := Write(y.store.disk, y.store.disk.parts[j.part], |bytes|, data)),
                            y.conns[id := c.(upload := c.upload.(received := |bytes| + |data|))]);
            PartsApart(z.store.disk) && Holds(z, id, j, fileId, bytes + data)
  {
    AppendedAtEnd(bytes, data);
    hide Overlay;
  }

  lemma AppendedAtEnd(bytes: Bytes, data: Bytes)
    ensures Overlay(bytes, |bytes|, data) == bytes + data
  {
  }

  lemma OwnChunk(e: Env, y: System, id: int, j: Job, fileId: FileId, bytes: Bytes, data: Bytes)
    requires Holds(y, id, j, fileId, bytes) && fileId != []
    requires data != [] && |bytes| + |data| <= |j.content|
    ensures var c := y.conns[id];
            Handle(e, y.store, c, UploadChunk(fileId, |bytes|, data)) ==
              Outcome(y.store.(disk := Write(y.store.disk, y.store.disk.parts[j.part], |bytes|, data)),
                      c.(upload := c.upload.(received := |bytes| + |data|)), Done)
  {
    hide Write;
  }

  /** How many bytes the next chunk carries. */
  function Want(j: Job, sent: nat): (n: nat)
    requires j.chunk > 0 && sent < |j.content|
    ensures 0 < n <= |j.content| - sent
  {
    Min(j.chunk, |j.content| - sent)
  }

  /** Other connections' steps, and then the chunk at `sent`. */
  function AfterTurn(e: Env, y: System, id: int, j: Job, fileId: FileId, sent: nat, others: seq<Label>): System
    requires j.chunk > 0 && sent < |j.content| < TWO_TO_THE_63
  {
    Next(e, Run(e, y, others), Send(id, UploadChunk(fileId, sent, j.content[sent..sent + Want(j, sent)])))
  }

  /** The sending loop of CloudClient::put; `turns` are what other connections do before each chunk, and
      the upload is interrupted when they run out. */
  function SendAll(e: Env, y: System, id: int, j: Job, fileId: FileId, sent: nat, turns: seq<seq<Label>>): (System, nat)
    requires j.chunk > 0 && |j.content| < TWO_TO_THE_63
    decreases |turns|
  {
    if turns == [] || sent >= |j.content| then (y, sent)
    else
      SendAll(e, AfterTurn(e, y, id, j, fileId, sent, turns[0]), id, j, fileId, sent + Want(j, sent), turns[1..])
  }

  /** Along the sending loop the other connections leave the part alone. */
  ghost predicate Undisturbed(e: Env, y: System, id: int, j: Job, fileId: FileId, sent: nat, turns: seq<seq<Label>>)
    requires j.chunk > 0 && |j.content| < TWO_TO_THE_63
    decreases |turns|
  {
    turns != [] && sent < |j.content| ==>
      && LeftAlone(e, y, turns[0], id, j.part)
      && Undisturbed(e, AfterTurn(e, y, id, j, fileId, sent, turns[0]), id, j, fileId, sent + Want(j, sent), turns[1..])
  }

  lemma HoldsSamePart(y: System, z: System, id: int, j: Job, fileId: FileId, bytes: Bytes)
    requires Holds(y, id, j, fileId, bytes) && SamePart(y, z, id, j.part)
    ensures Holds(z, id, j, fileId, bytes)
  {
  }

  lemma JobBounds(e: Env, j: Job)
    requires JobOk(e, j)
    ensures j.chunk > 0 && |j.content| < TWO_TO_THE_63
  {
  }

  /** A part that held `kept` and then took the content up to `n`. */
  function Grown(kept: Bytes, content: Bytes, n: nat): (r: Bytes)
    requires |kept| <= n <= |content|
    ensures |r| == n
  {
    kept + content[|kept|..n]
  }

  lemma GrowsBy(kept: Bytes, content: Bytes, n: nat, more: nat)
    requires |kept| <= n && n + more <= |content|
    ensures Grown(kept, content, n) + content[n..n + more] == Grown(kept, content, n + more)
  {
  }

  lemma OneTurn(e: Env, y: System, id: int, j: Job, fileId: FileId, bytes: Bytes, data: Bytes, others: seq<Label>)
    requires Quiet(e, y) && LeftAlone(e, y, others, id, j.part) && fileId != []
    requires data != [] && |bytes| + |data| <= |j.content| < TWO_TO_THE_63
    requires Holds(y, id, j, fileId, bytes)
    ensures var z := Next(e, Run(e, y, others), Send(id, UploadChunk(fileId, |bytes|, data)));
            Quiet(e, z) && Holds(z, id, j, fileId, bytes + data)
  {
    hide Quiet, Holds, Next, Run, LeftAlone, SamePart;
    OtherSteps(e, y, others, id, j.part);
    HoldsSamePart(y, Run(e, y, others), id, j, fileId, bytes);
    ChunkHolds(e, Run(e, y, others), id, j, fileId, bytes, data);
  }

  lemma TurnGrows(e: Env, y: System, id: int, j: Job, fileId: FileId, kept: Bytes, sent: nat, others: seq<Label>)
    requires Quiet(e, y) && LeftAlone(e, y, others, id, j.part) && fileId != []
    requires |kept| <= sent < |j.content| < TWO_TO_THE_63 && j.chunk > 0
    requires Holds(y, id, j, fileId, Grown(kept, j.content, sent))
    ensures var z := AfterTurn(e, y, id, j, fileId, sent, others);
            Quiet(e, z) && Holds(z, id, j, fileId, Grown(kept, j.content, sent + Want(j, sent)))
  {
    hide Quiet, Holds, Next, Run, LeftAlone, Want, Grown;
    GrowsBy(kept, j.content, sent, Want(j, sent));
    OneTurn(e, y, id, j, fileId, Grown(kept, j.content, sent), j.content[sent..sent + Want(j, sent)], others);
  }

  /** After any number of chunks the part is what it held at the start, and the content from there on. */
  lemma {:induction false} SendAllHolds(e: Env, y: System, id: int, j: Job, fileId: FileId, kept: Bytes, sent: nat,
                                        turns: seq<seq<Label>>)
    requires JobOk(e, j) && fileId != [] && Quiet(e, y)
    requires |kept| <= sent <= |j.content| && Holds(y, id, j, fileId, Grown(kept, j.content, sent))
    requires Undisturbed(e, y, id, j, fileId, sent, turns)
    ensures var (z, n) := SendAll(e, y, id, j, fileId, sent, turns);
            && sent <= n <= |j.content| && (|turns| >= |j.content| - sent ==> n == |j.content|)
            && Quiet(e, z) && Holds(z, id, j, fileId, Grown(kept, j.content, n))
    decreases |turns|
  {
    hide Quiet, Holds, LeftAlone, AfterTurn, JobOk;
    assert j.chunk > 0 && |j.content| < TWO_TO_THE_63 by { JobBounds(e, j); }
    if turns != [] && sent < |j.content| {
      TurnGrows(e, y, id, j, fileId, kept, sent, turns[0]);
      SendAllHolds(e, AfterTurn(e, y, id, j, fileId, sent, turns[0]), id, j, fileId, kept, sent + Want(j, sent),
          turns[1..]);
    }
  }

  /** The end of an upload that was sent completely: it publishes the content if the part holds it, and
      otherwise throws the part away. */
  lemma EndOutcome(e: Env, y: System, id: int, j: Job, fileId: FileId, bytes: Bytes)
    requires JobOk(e, j) && Quiet(e, y) && Holds(y, id, j, fileId, bytes)
    requires |bytes| == |j.content| && NoCollision(e, bytes, j.content)
    requires CollisionFreeStep(e, y, Send(id, UploadEnd))
    ensures var z, reply := Next(e, y, Send(id, UploadEnd)), Handle(e, y.store, y.conns[id], UploadEnd).reply;
            && Quiet(e, z) && j.part !in z.store.disk.parts
            && (if bytes == j.content
                then reply == Done && ChangeAt(e, y, Send(id, UploadEnd)) == Put(j.key, j.content)
                else reply == Refused(Unprocessable) && ChangeAt(e, y, Send(id, UploadEnd)) == Same)
  {
    hide SystemOk, Handle, Perform, ChangeAt, JobOk, Holds, CollisionFreeStep;
    NextOk(e, y, Send(id, UploadEnd));
    OwnEnd(e, y, id, j, fileId, bytes);
    HoldsConn(y, id, j, fileId, bytes);
  }

  lemma OwnEnd(e: Env, y: System, id: int, j: Job, fileId: FileId, bytes: Bytes)
    requires JobOk(e, j) && Holds(y, id, j, fileId, bytes)
    requires |bytes| == |j.content| && NoCollision(e, bytes, j.content)
    ensures var o := Handle(e, y.store, y.conns[id], UploadEnd);
            && o.store.disk.parts == y.store.disk.parts - {j.part} && o.conn.upload.fd.None?
            && (if bytes == j.content
                then o.reply == Done && ChangeAt(e, y, Send(id, UploadEnd)) == Put(j.key, j.content)
                else o.reply == Refused(Unprocessable) && ChangeAt(e, y, Send(id, UploadEnd)) == Same)
  {
    hide OnUploadEnd, JobOk, Holds, KeyOf, Handle, ChangeAt, PartBytes;
    HoldsConn(y, id, j, fileId, bytes);
    EndReply(e, y, id, j, fileId, bytes);
    OwnKey(e, j);
    EndChange(e, y, id);
  }

  /** What upload_end does and means on a logged-in connection. */
  lemma EndChange(e: Env, y: System, id: int)
    requires id in y.conns && y.conns[id].session.Some?
    ensures var c := y.conns[id];
            var o := OnUploadEnd(e, y.store, c, c.session.value.userId);
            && Handle(e, y.store, c, UploadEnd) == o
            && ChangeAt(e, y, Send(id, UploadEnd)) ==
                 if o.reply == Done
                 then Put(Key(c.session.value.userId, c.upload.path), PartBytes(y.store.disk, c.upload.part)) else Same
  {
    hide OnUploadEnd, PartBytes;
  }

  lemma EndReply(e: Env, y: System, id: int, j: Job, fileId: FileId, bytes: Bytes)
    requires JobOk(e, j) && Holds(y, id, j, fileId, bytes)
    requires |bytes| == |j.content| && NoCollision(e, bytes, j.content)
    ensures var o := OnUploadEnd(e, y.store, y.conns[id], j.session.userId);
            && o.store.disk.parts == y.store.disk.parts - {j.part} && o.conn.upload.fd.None?
            && o.reply == (if bytes == j.content then Done else Refused(Unprocessable))
  {
    OwnRefusal(e, y, id, j, fileId, bytes);
    FinishParts(y.store, j.key, y.conns[id].upload);
    OwnKey(e, j);
    hide FinishRefusal, AfterRefusedFinish, FinishUpload, KeyOf, PartOf, JobOk;
  }

  lemma OwnKey(e: Env, j: Job)
    requires JobOk(e, j)
    ensures Key(j.session.userId, j.key.path) == j.key
  {
  }

  lemma OwnRefusal(e: Env, y: System, id: int, j: Job, fileId: FileId, bytes: Bytes)
    requires JobOk(e, j) && Holds(y, id, j, fileId, bytes)
    requires |bytes| == |j.content| && NoCollision(e, bytes, j.content)
    ensures var d, up := y.store.disk, y.conns[id].upload;
            && FinishRefusal(e, d, up) == (if bytes == j.content then None else Some(Unprocessable))
            && AfterRefusedFinish(d, up).parts == d.parts - {j.part}
  {
    hide KeyOf, PartOf;
  }

  lemma FinishParts(s: Store, k: Key, up: Upload)
    ensures FinishUpload(s, k, up).disk.parts == s.disk.parts - {up.part}
  {
    hide Cleared, PublishFile;
  }

  // ---------------------------------------------------------------- a put among others on the same part

  /** Steps of others, free of collisions, that are honest about the part; they may hold, write and end it. */
  ghost predicate HonestOthers(e: Env, y: System, ls: seq<Label>, id: int, j: Job) {
    forall n | 0 <= n < |ls| ::
      && ByOthers(ls[n], id) && CollisionFreeStep(e, Run(e, y, ls[..n]), ls[n])
      && Honest(Run(e, y, ls[..n]), ls[n], j.part, j.content)
  }

  lemma {:induction false} OthersKeepConnAll(e: Env, y: System, ls: seq<Label>, id: int)
    requires forall l | l in ls :: ByOthers(l, id)
    ensures SameConn(y, Run(e, y, ls), id)
  {
    hide Next;
    if ls != [] {
      assert ls == ls[..|ls| - 1] + [ls[|ls| - 1]];
      OthersKeepConnAll(e, y, ls[..|ls| - 1], id);
      OthersKeepConn(e, Run(e, y, ls[..|ls| - 1]), ls[|ls| - 1], id);
    }
  }

  lemma HonestSteps(e: Env, y: System, ls: seq<Label>, id: int, j: Job)
    requires Quiet(e, y) && Growing(y, j.part, j.content) && HonestOthers(e, y, ls, id, j)
    ensures Quiet(e, Run(e, y, ls)) && Growing(Run(e, y, ls), j.part, j.content) && SameConn(y, Run(e, y, ls), id)
  {
    hide Run, SystemOk, PartsApart, Growing, CollisionFreeStep, Honest;
    PartsStayApart(e, y, ls);
    PartStaysPrefix(e, y, ls, j.part, j.content);
    OthersKeepConnAll(e, y, ls, id);
  }

  /** The upload of connection `id` is the job's, and has received `sent` bytes. */
  predicate OwnUpload(y: System, id: int, j: Job, fileId: FileId, sent: nat) {
    && id in y.conns && y.conns[id].session == Some(j.session) && sent <= |j.content| < TWO_TO_THE_63
    && y.conns[id].upload.fd.Some?
    && y.conns[id].upload == Upload(fileId, j.key.path, j.part, j.md5, |j.content|, sent, y.conns[id].upload.fd)
  }

  lemma BeginOp(e: Env, y: System, id: int, j: Job, fileId: FileId)
    requires JobOk(e, j) && id in y.conns && y.conns[id].session == Some(j.session)
    ensures OpOf(y, Send(id, BeginOf(j, fileId))) ==
            Some(DoBegin(j.key, Ok(j.part), j.md5, |j.content| % TWO_TO_THE_64, fileId))
  {
    hide KeyOf, PartOf;
  }

  lemma BeginGrows(e: Env, y: System, id: int, j: Job, fileId: FileId)
    requires Quiet(e, y) && JobOk(e, j) && Growing(y, j.part, j.content)
    requires id in y.conns && y.conns[id].session == Some(j.session)
    ensures var z, n := Next(e, y, Send(id, BeginOf(j, fileId))), |PartBytes(y.store.disk, j.part)|;
            && Quiet(e, z) && Growing(z, j.part, j.content) && OwnUpload(z, id, j, fileId, n)
            && Handle(e, y.store, y.conns[id], BeginOf(j, fileId)).reply == Begun(n)
  {
    hide Next, Handle, JobOk, BeginOf, Holds, OwnUpload, Growing, Honest, CollisionFreeStep, Kept, PartBytes, SystemOk;
    hide PartsApart;
    PrefixIsKept(y, j);
    BeginHolds(e, y, id, j, fileId);
    HoldsOwn(Next(e, y, Send(id, BeginOf(j, fileId))), id, j, fileId, Kept(y.store.disk, j));
    BeginIsHonest(e, y, id, j, fileId);
    StepGrows(e, y, Send(id, BeginOf(j, fileId)), j.part, j.content);
  }

  lemma PrefixIsKept(y: System, j: Job)
    requires Growing(y, j.part, j.content)
    ensures Kept(y.store.disk, j) == PartBytes(y.store.disk, j.part)
  {
  }

  lemma HoldsOwn(y: System, id: int, j: Job, fileId: FileId, bytes: Bytes)
    requires Holds(y, id, j, fileId, bytes)
    ensures OwnUpload(y, id, j, fileId, |bytes|)
  {
  }

  lemma BeginIsHonest(e: Env, y: System, id: int, j: Job, fileId: FileId)
    requires JobOk(e, j) && id in y.conns && y.conns[id].session == Some(j.session)
    ensures Honest(y, Send(id, BeginOf(j, fileId)), j.part, j.content)
    ensures CollisionFreeStep(e, y, Send(id, BeginOf(j, fileId)))
  {
    hide JobOk, OpOf, BeginOf;
    JobBounds(e, j);
    BeginOp(e, y, id, j, fileId);
    assert !BeginOf(j, fileId).UploadEnd?;
  }

  lemma OwnChunkReceived(e: Env, y: System, id: int, j: Job, fileId: FileId, sent: nat, data: Bytes)
    requires OwnUpload(y, id, j, fileId, sent) && fileId != []
    requires data != [] && sent + |data| <= |j.content|
    ensures var l := Send(id, UploadChunk(fileId, sent, data));
            OpOf(y, l) == Some(DoChunk(fileId, sent, data)) && OwnUpload(Next(e, y, l), id, j, fileId, sent + |data|)
  {
    hide Write;
  }

  lemma ChunkGrows(e: Env, y: System, id: int, j: Job, fileId: FileId, sent: nat, n: nat)
    requires Quiet(e, y) && Growing(y, j.part, j.content) && OwnUpload(y, id, j, fileId, sent) && fileId != []
    requires n > 0 && sent + n <= |j.content|
    ensures var z := Next(e, y, Send(id, UploadChunk(fileId, sent, j.content[sent..sent + n])));
            Quiet(e, z) && Growing(z, j.part, j.content) && OwnUpload(z, id, j, fileId, sent + n)
  {
    hide Next, Growing, SystemOk, PartsApart, Honest, CollisionFreeStep;
    var data := j.content[sent..sent + n];
    assert |data| == n && data != [];
    var l := Send(id, UploadChunk(fileId, sent, data));
    OwnChunkReceived(e, y, id, j, fileId, sent, data);
    ChunkIsHonest(e, y, id, j, fileId, sent, data);
    QuietStep(e, y, l);
    StepGrows(e, y, l, j.part, j.content);
  }

  lemma ChunkIsHonest(e: Env, y: System, id: int, j: Job, fileId: FileId, sent: nat, data: Bytes)
    requires OwnUpload(y, id, j, fileId, sent) && sent + |data| <= |j.content| && data == j.content[sent..sent + |data|]
    requires OpOf(y, Send(id, UploadChunk(fileId, sent, data))) == Some(DoChunk(fileId, sent, data))
    ensures Honest(y, Send(id, UploadChunk(fileId, sent, data)), j.part, j.content)
    ensures CollisionFreeStep(e, y, Send(id, UploadChunk(fileId, sent, data)))
  {
    hide OpOf;
    assert !UploadChunk(fileId, sent, data).UploadEnd?;
  }

  /** Along the sending loop the other connections are honest about the part. */
  ghost predicate HonestTurns(e: Env, y: System, id: int, j: Job, fileId: FileId, sent: nat, turns: seq<seq<Label>>)
    requires j.chunk > 0 && |j.content| < TWO_TO_THE_63
    decreases |turns|
  {
    turns != [] && sent < |j.content| ==>
      && HonestOthers(e, y, turns[0], id, j)
      && HonestTurns(e, AfterTurn(e, y, id, j, fileId, sent, turns[0]), id, j, fileId, sent + Want(j, sent), turns[1..])
  }

  lemma SameOwnUpload(y: System, z: System, id: int, j: Job, fileId: FileId, sent: nat)
    requires OwnUpload(y, id, j, fileId, sent) && SameConn(y, z, id)
    ensures OwnUpload(z, id, j, fileId, sent)
  {
  }

  lemma HonestTurn(e: Env, y: System, id: int, j: Job, fileId: FileId, sent: nat, others: seq<Label>)
    requires Quiet(e, y) && Growing(y, j.part, j.content) && OwnUpload(y, id, j, fileId, sent) && fileId != []
    requires sent < |j.content| < TWO_TO_THE_63 && j.chunk > 0 && HonestOthers(e, y, others, id, j)
    ensures var z := AfterTurn(e, y, id, j, fileId, sent, others);
            Quiet(e, z) && Growing(z, j.part, j.content) && OwnUpload(z, id, j, fileId, sent + Want(j, sent))
  {
    hide Quiet, Growing, OwnUpload, HonestOthers, Next, Run, Want, SameConn;
    HonestSteps(e, y, others, id, j);
    SameOwnUpload(y, Run(e, y, others), id, j, fileId, sent);
    ChunkGrows(e, Run(e, y, others), id, j, fileId, sent, Want(j, sent));
  }

  /** After any number of chunks, with others at work on the same part, it still holds a prefix of the content. */
  lemma {:induction false} SendAllGrows(e: Env, y: System, id: int, j: Job, fileId: FileId, sent: nat,
                                        turns: seq<seq<Label>>)
    requires JobOk(e, j) && fileId != [] && Quiet(e, y) && Growing(y, j.part, j.content)
    requires OwnUpload(y, id, j, fileId, sent) && j.chunk > 0 && |j.content| < TWO_TO_THE_63
    requires HonestTurns(e, y, id, j, fileId, sent, turns)
    ensures var z := SendAll(e, y, id, j, fileId, sent, turns).0; Quiet(e, z) && Growing(z, j.part, j.content)
    decreases |turns|
  {
    hide Quiet, Growing, OwnUpload, HonestOthers, AfterTurn, JobOk;
    if turns != [] && sent < |j.content| {
      HonestTurn(e, y, id, j, fileId, sent, turns[0]);
      SendAllGrows(e, AfterTurn(e, y, id, j, fileId, sent, turns[0]), id, j, fileId, sent + Want(j, sent), turns[1..]);
    }
  }

  // ---------------------------------------------------------------- many puts

  /** One put, on a new connection `id`: what others do before it, before each chunk and before its end; it is
      interrupted unless it `finishes`. An interrupted connection stays, holding the part, until a later step
      closes it. */
  datatype Attempt = Attempt(id: int, before: seq<Label>, fileId: FileId, turns: seq<seq<Label>>, finishes: bool,
                             ending: seq<Label>)

  function Connected(e: Env, y: System, j: Job, a: Attempt): System {
    Next(e, Next(e, Run(e, y, a.before), Accept(a.id)), Send(a.id, Login(j.session)))
  }

  function Opened(e: Env, y: System, j: Job, a: Attempt): System {
    Next(e, Connected(e, y, j, a), Send(a.id, BeginOf(j, a.fileId)))
  }

  /** The offset in the server's answer to upload_begin. */
  function ResumeAt(e: Env, y: System, j: Job, a: Attempt): nat {
    var z := Connected(e, y, j, a);
    if a.id !in z.conns then 0
    else
      var reply := Handle(e, z.store, z.conns[a.id], BeginOf(j, a.fileId)).reply;
      if reply.Begun? then reply.received else 0
  }

  function LoopEnd(e: Env, y: System, j: Job, a: Attempt): System
    requires j.chunk > 0 && |j.content| < TWO_TO_THE_63
  {
    SendAll(e, Opened(e, y, j, a), a.id, j, a.fileId, ResumeAt(e, y, j, a), a.turns).0
  }

  function AllSent(e: Env, y: System, j: Job, a: Attempt): System
    requires j.chunk > 0 && |j.content| < TWO_TO_THE_63
  {
    Run(e, LoopEnd(e, y, j, a), a.ending)
  }

  /** The server's answer to upload_end, when the put gets that far. */
  function ReplyOf(e: Env, y: System, j: Job, a: Attempt): Option<Reply>
    requires j.chunk > 0 && |j.content| < TWO_TO_THE_63
  {
    var z := AllSent(e, y, j, a);
    if a.finishes && a.id in z.conns then Some(Handle(e, z.store, z.conns[a.id], UploadEnd).reply) else None
  }

  function AfterAttempt(e: Env, y: System, j: Job, a: Attempt): System
    requires j.chunk > 0 && |j.content| < TWO_TO_THE_63
  {
    if a.finishes then Next(e, AllSent(e, y, j, a), Send(a.id, UploadEnd)) else AllSent(e, y, j, a)
  }

  lemma {:induction false} RunJoin(e: Env, y: System, a: seq<Label>, b: seq<Label>)
    ensures Run(e, Run(e, y, a), b) == Run(e, y, a + b)
  {
    hide Next;
    if b == [] {
      assert a + b == a;
    } else {
      RunJoin(e, y, a, b[..|b| - 1]);
      assert (a + b)[..|a + b| - 1] == a + b[..|b| - 1];
    }
  }

  lemma RunMore(e: Env, y: System, ls: seq<Label>, l: Label)
    ensures Next(e, Run(e, y, ls), l) == Run(e, y, ls + [l])
  {
    assert (ls + [l])[..|ls|] == ls;
  }

  lemma {:induction false} SendAllIsRun(e: Env, y: System, id: int, j: Job, fileId: FileId, sent: nat,
                                        turns: seq<seq<Label>>)
    returns (ls: seq<Label>)
    requires j.chunk > 0 && |j.content| < TWO_TO_THE_63
    ensures SendAll(e, y, id, j, fileId, sent, turns).0 == Run(e, y, ls)
    decreases |turns|
  {
    hide Next, Run;
    if turns == [] || sent >= |j.content| {
      ls := [];
      assert Run(e, y, []) == y by { RunNothing(e, y); }
    } else {
      var l := Send(id, UploadChunk(fileId, sent, j.content[sent..sent + Want(j, sent)]));
      RunMore(e, y, turns[0], l);
      var rest := SendAllIsRun(e, AfterTurn(e, y, id, j, fileId, sent, turns[0]), id, j, fileId, sent + Want(j, sent),
          turns[1..]);
      RunJoin(e, y, turns[0] + [l], rest);
      ls := turns[0] + [l] + rest;
    }
  }

  lemma RunNothing(e: Env, y: System)
    ensures Run(e, y, []) == y
  {
  }

  /** A put among other connections' steps is a run. */
  lemma AttemptIsRun(e: Env, y: System, j: Job, a: Attempt) returns (ls: seq<Label>)
    requires j.chunk > 0 && |j.content| < TWO_TO_THE_63
    ensures AfterAttempt(e, y, j, a) == Run(e, y, ls)
  {
    hide Next, Run, SendAll, ResumeAt, BeginOf;
    RunMore(e, y, a.before, Accept(a.id));
    RunMore(e, y, a.before + [Accept(a.id)], Send(a.id, Login(j.session)));
    ls := a.before + [Accept(a.id)] + [Send(a.id, Login(j.session))];
    RunMore(e, y, ls, Send(a.id, BeginOf(j, a.fileId)));
    ls := ls + [Send(a.id, BeginOf(j, a.fileId))];
    var sent := SendAllIsRun(e, Opened(e, y, j, a), a.id, j, a.fileId, ResumeAt(e, y, j, a), a.turns);
    RunJoin(e, y, ls, sent);
    ls := ls + sent;
    RunJoin(e, y, ls, a.ending);
    ls := ls + a.ending;
    if a.finishes {
      RunMore(e, y, ls, Send(a.id, UploadEnd));
      ls := ls + [Send(a.id, UploadEnd)];
    }
  }

  // ---------------------------------------------------------------- any number of puts at once

  /** A put on a new connection among others that are honest about the part. */
  ghost predicate AttemptHonest(e: Env, y: System, j: Job, a: Attempt)
    requires j.chunk > 0 && |j.content| < TWO_TO_THE_63
  {
    && a.id !in y.conns && a.fileId != []
    && HonestOthers(e, y, a.before, a.id, j)
    && HonestTurns(e, Opened(e, y, j, a), a.id, j, a.fileId, ResumeAt(e, y, j, a), a.turns)
    && HonestOthers(e, LoopEnd(e, y, j, a), a.ending, a.id, j)
    && (a.finishes ==> CollisionFreeStep(e, AllSent(e, y, j, a), Send(a.id, UploadEnd)))
  }

  lemma Reconnect(e: Env, w: System, id: int, session: Session)
    requires Quiet(e, w) && id !in w.conns
    ensures var z := Next(e, Next(e, w, Accept(id)), Send(id, Login(session)));
            && Quiet(e, z) && z.store == w.store
            && z.conns == w.conns[id := FRESH_CONN.(session := Some(session))]
  {
    hide Perform, Parse, SystemOk;
    NextOk(e, w, Accept(id));
    NextOk(e, Next(e, w, Accept(id)), Send(id, Login(session)));
  }

  lemma FreshConnGrows(y: System, z: System, id: int, session: Session, p: PartName, content: Bytes)
    requires Growing(y, p, content) && z.store == y.store
    requires z.conns == y.conns[id := FRESH_CONN.(session := Some(session))]
    ensures Growing(z, p, content)
  {
  }

  lemma ConnectedGrows(e: Env, y: System, j: Job, a: Attempt)
    requires Quiet(e, y) && Growing(y, j.part, j.content) && a.id !in y.conns && HonestOthers(e, y, a.before, a.id, j)
    ensures var z := Connected(e, y, j, a);
            && Quiet(e, z) && Growing(z, j.part, j.content)
            && a.id in z.conns && z.conns[a.id].session == Some(j.session)
            && z.store == Run(e, y, a.before).store
  {
    hide Quiet, Growing, HonestOthers, Run, Next;
    HonestSteps(e, y, a.before, a.id, j);
    Reconnect(e, Run(e, y, a.before), a.id, j.session);
    FreshConnGrows(Run(e, y, a.before), Connected(e, y, j, a), a.id, j.session, j.part, j.content);
  }

  /** A put resumes at the length of the prefix that is there, and whether it is interrupted or finishes, and
      whatever uploads of the same content others have hanging or running on the same part meanwhile, the part
      is a prefix of the content afterwards. */
  lemma InterruptedPut(e: Env, y: System, j: Job, a: Attempt)
    requires Quiet(e, y) && JobOk(e, j) && Growing(y, j.part, j.content) && AttemptHonest(e, y, j, a)
    ensures ResumeAt(e, y, j, a) == |PartBytes(Run(e, y, a.before).store.disk, j.part)|
    ensures Quiet(e, AfterAttempt(e, y, j, a)) && Growing(AfterAttempt(e, y, j, a), j.part, j.content)
  {
    hide Quiet, Growing, HonestOthers, HonestTurns, JobOk, SendAll, Connected, Next, Handle, BeginOf, OwnUpload, Run;
    JobBounds(e, j);
    ConnectedGrows(e, y, j, a);
    BeginGrows(e, Connected(e, y, j, a), a.id, j, a.fileId);
    SendAllGrows(e, Opened(e, y, j, a), a.id, j, a.fileId, ResumeAt(e, y, j, a), a.turns);
    HonestSteps(e, LoopEnd(e, y, j, a), a.ending, a.id, j);
    if a.finishes {
      EndGrows(e, AllSent(e, y, j, a), a.id, j);
    }
  }

  lemma EndGrows(e: Env, y: System, id: int, j: Job)
    requires Quiet(e, y) && Growing(y, j.part, j.content) && CollisionFreeStep(e, y, Send(id, UploadEnd))
    ensures var z := Next(e, y, Send(id, UploadEnd)); Quiet(e, z) && Growing(z, j.part, j.content)
  {
    hide Next, Growing, SystemOk, PartsApart, CollisionFreeStep;
    QuietStep(e, y, Send(id, UploadEnd));
    StepGrows(e, y, Send(id, UploadEnd), j.part, j.content);
  }

  function AfterAttempts(e: Env, y: System, j: Job, attempts: seq<Attempt>): System
    requires j.chunk > 0 && |j.content| < TWO_TO_THE_63
    decreases |attempts|
  {
    if attempts == [] then y else AfterAttempts(e, AfterAttempt(e, y, j, attempts[0]), j, attempts[1..])
  }

  ghost predicate AttemptsHonest(e: Env, y: System, j: Job, attempts: seq<Attempt>)
    requires j.chunk > 0 && |j.content| < TWO_TO_THE_63
    decreases |attempts|
  {
    attempts != [] ==>
      AttemptHonest(e, y, j, attempts[0]) && AttemptsHonest(e, AfterAttempt(e, y, j, attempts[0]), j, attempts[1..])
  }

  /** Any number of puts of one content, interrupted or not, leave the part a prefix of it. */
  lemma {:induction false} InterruptedPuts(e: Env, y: System, j: Job, attempts: seq<Attempt>)
    requires Quiet(e, y) && JobOk(e, j) && Growing(y, j.part, j.content) && AttemptsHonest(e, y, j, attempts)
    ensures Quiet(e, AfterAttempts(e, y, j, attempts)) && Growing(AfterAttempts(e, y, j, attempts), j.part, j.content)
    decreases |attempts|
  {
    hide Quiet, Growing, AttemptHonest, AfterAttempt, JobOk;
    JobBounds(e, j);
    if attempts != [] {
      InterruptedPut(e, y, j, attempts[0]);
      InterruptedPuts(e, AfterAttempt(e, y, j, attempts[0]), j, attempts[1..]);
    }
  }

  // ---------------------------------------------------------------- one put at a time

  /** A put on a new connection during which the others leave the part alone, though they may hold it. A put
      that finishes sends everything, and the digest check is not fooled by a collision. */
  ghost predicate AttemptAlone(e: Env, y: System, j: Job, a: Attempt)
    requires j.chunk > 0 && |j.content| < TWO_TO_THE_63
  {
    && a.id !in y.conns && a.fileId != []
    && LeftAlone(e, y, a.before, a.id, j.part)
    && Undisturbed(e, Opened(e, y, j, a), a.id, j, a.fileId, ResumeAt(e, y, j, a), a.turns)
    && LeftAlone(e, LoopEnd(e, y, j, a), a.ending, a.id, j.part)
    && (a.finishes ==>
          && |a.turns| >= |j.content|
          && NoCollision(e, PartBytes(AllSent(e, y, j, a).store.disk, j.part), j.content)
          && CollisionFreeStep(e, AllSent(e, y, j, a), Send(a.id, UploadEnd)))
  }

  lemma ConnectedAlone(e: Env, y: System, j: Job, a: Attempt)
    requires Quiet(e, y) && a.id !in y.conns && LeftAlone(e, y, a.before, a.id, j.part)
    ensures var z := Connected(e, y, j, a);
            && Quiet(e, z) && a.id in z.conns && z.conns[a.id].session == Some(j.session)
            && Kept(z.store.disk, j) == Kept(y.store.disk, j)
  {
    hide Quiet, LeftAlone, Run, Next;
    OtherSteps(e, y, a.before, a.id, j.part);
    Reconnect(e, Run(e, y, a.before), a.id, j.session);
  }

  /** When a put has sent what it could, the part is what it held before and the content from there on. */
  lemma AllSentIs(e: Env, y: System, j: Job, a: Attempt) returns (n: nat)
    requires Quiet(e, y) && JobOk(e, j) && AttemptAlone(e, y, j, a)
    ensures var kept := Kept(y.store.disk, j);
            && |kept| <= n <= |j.content| && (|a.turns| >= |j.content| ==> n == |j.content|)
            && Quiet(e, AllSent(e, y, j, a)) && Holds(AllSent(e, y, j, a), a.id, j, a.fileId, Grown(kept, j.content, n))
  {
    hide Quiet, Holds, JobOk, LeftAlone, Connected, Undisturbed, SendAll, Kept, Grown, Next, Handle, BeginOf, Run;
    hide SamePart;
    var kept := Kept(y.store.disk, j);
    JobBounds(e, j);
    KeptFits(y.store.disk, j);
    NothingGrown(kept, j.content);
    ConnectedAlone(e, y, j, a);
    BeginHolds(e, Connected(e, y, j, a), a.id, j, a.fileId);
    SendAllHolds(e, Opened(e, y, j, a), a.id, j, a.fileId, kept, |kept|, a.turns);
    n := SendAll(e, Opened(e, y, j, a), a.id, j, a.fileId, |kept|, a.turns).1;
    OtherSteps(e, LoopEnd(e, y, j, a), a.ending, a.id, j.part);
    HoldsSamePart(LoopEnd(e, y, j, a), AllSent(e, y, j, a), a.id, j, a.fileId, Grown(kept, j.content, n));
  }

  lemma NothingGrown(kept: Bytes, content: Bytes)
    requires |kept| <= |content|
    ensures Grown(kept, content, |kept|) == kept
  {
  }

  /** An interrupted put leaves in the part exactly what it kept and some of the content from there on. */
  lemma InterruptedPutExtends(e: Env, y: System, j: Job, a: Attempt) returns (n: nat)
    requires Quiet(e, y) && JobOk(e, j) && AttemptAlone(e, y, j, a) && !a.finishes
    ensures var z := AfterAttempt(e, y, j, a);
            && Quiet(e, z) && |Kept(y.store.disk, j)| <= n <= |j.content|
            && PartBytes(z.store.disk, j.part) == Grown(Kept(y.store.disk, j), j.content, n)
  {
    hide Quiet, AllSent, Grown, Kept, AttemptAlone, JobOk, Holds;
    JobBounds(e, j);
    n := AllSentIs(e, y, j, a);
    HoldsConn(AllSent(e, y, j, a), a.id, j, a.fileId, Grown(Kept(y.store.disk, j), j.content, n));
  }

  /** A put that finishes publishes exactly the content and uses the part up, if what it resumed was a prefix
      of the content; if not, it is refused and the part is thrown away. */
  lemma FinishedPut(e: Env, y: System, j: Job, a: Attempt)
    requires Quiet(e, y) && JobOk(e, j) && AttemptAlone(e, y, j, a) && a.finishes
    ensures var z, kept := AfterAttempt(e, y, j, a), Kept(y.store.disk, j);
            && Quiet(e, z) && j.part !in z.store.disk.parts
            && ReplyOf(e, y, j, a) == Some(if kept <= j.content then Done else Refused(Unprocessable))
            && ChangeAt(e, AllSent(e, y, j, a), Send(a.id, UploadEnd)) ==
                 (if kept <= j.content then Put(j.key, j.content) else Same)
  {
    hide Quiet, AllSent, Grown, Kept, Next, Handle, ChangeAt, JobOk, Holds, CollisionFreeStep, NoCollision;
    JobBounds(e, j);
    var kept := Kept(y.store.disk, j);
    var n := AllSentIs(e, y, j, a);
    GrownIsContent(kept, j.content);
    HoldsConn(AllSent(e, y, j, a), a.id, j, a.fileId, Grown(kept, j.content, n));
    EndOutcome(e, AllSent(e, y, j, a), a.id, j, a.fileId, Grown(kept, j.content, n));
  }

  lemma GrownIsContent(kept: Bytes, content: Bytes)
    requires |kept| <= |content|
    ensures Grown(kept, content, |content|) == content <==> kept <= content
  {
    var g := Grown(kept, content, |content|);
    assert g[..|kept|] == kept;
    if kept <= content {
      assert g == content;
    }
  }

  lemma EndIsSafe(e: Env, y: System, id: int)
    ensures SafeStep(e, y, Send(id, UploadEnd))
  {
    hide Perform;
  }

  /** What the users' map shows after a put that finished: the content at the put's key, and nothing else new. */
  lemma FinishedPutShows(e: Env, y: System, j: Job, a: Attempt)
    requires Quiet(e, y) && JobOk(e, j) && AttemptAlone(e, y, j, a) && a.finishes
    requires Kept(y.store.disk, j) <= j.content && Safe(AllSent(e, y, j, a).store)
    ensures var w, z := AllSent(e, y, j, a), AfterAttempt(e, y, j, a);
            Safe(z.store) && Files(z.store) == Files(w.store)[j.key := j.content]
  {
    hide AllSent, Kept, Files, ChangeAt, Safe, SystemOk, JobOk, Next, Handle, Holds, SafeStep, CollisionFreeStep;
    JobBounds(e, j);
    FinishedPut(e, y, j, a);
    var n := AllSentIs(e, y, j, a);
    StepOutcome(e, AllSent(e, y, j, a), Send(a.id, UploadEnd));
    EndIsSafe(e, AllSent(e, y, j, a), a.id);
  }

  ghost predicate AttemptsAlone(e: Env, y: System, j: Job, attempts: seq<Attempt>)
    requires j.chunk > 0 && |j.content| < TWO_TO_THE_63
    decreases |attempts|
  {
    attempts != [] ==>
      AttemptAlone(e, y, j, attempts[0]) && AttemptsAlone(e, AfterAttempt(e, y, j, attempts[0]), j, attempts[1..])
  }

  /** How many of the puts that got to their end were refused. */
  function Failures(e: Env, y: System, j: Job, attempts: seq<Attempt>): nat
    requires j.chunk > 0 && |j.content| < TWO_TO_THE_63
    decreases |attempts|
  {
    if attempts == [] then 0
    else
      var reply := ReplyOf(e, y, j, attempts[0]);
      (if reply.Some? && reply != Some(Done) then 1 else 0) +
      Failures(e, AfterAttempt(e, y, j, attempts[0]), j, attempts[1..])
  }

  /** However many puts of one content are interrupted or finished, one at a time, with connections that were cut
      off still holding the part and other users at work all along: from a part that holds a prefix of the
      content none ever fails and the part stays a prefix; from any other part at most one fails. */
  lemma {:induction false} PutsFailAtMostOnce(e: Env, y: System, j: Job, attempts: seq<Attempt>)
    requires Quiet(e, y) && JobOk(e, j) && AttemptsAlone(e, y, j, attempts)
    ensures var z := AfterAttempts(e, y, j, attempts);
            && Quiet(e, z)
            && Failures(e, y, j, attempts) <= 1
            && (Kept(y.store.disk, j) <= j.content ==>
                  Failures(e, y, j, attempts) == 0 && Kept(z.store.disk, j) <= j.content)
    decreases |attempts|
  {
    hide Quiet, AttemptAlone, AfterAttempt, ReplyOf, Kept, JobOk, AfterAttempts, AttemptsAlone, Failures;
    JobBounds(e, j);
    Unfolded(e, y, j, attempts);
    if attempts != [] {
      OnePut(e, y, j, attempts[0]);
      PutsFailAtMostOnce(e, AfterAttempt(e, y, j, attempts[0]), j, attempts[1..]);
    }
  }

  lemma Unfolded(e: Env, y: System, j: Job, attempts: seq<Attempt>)
    requires j.chunk > 0 && |j.content| < TWO_TO_THE_63
    ensures attempts == [] ==> AfterAttempts(e, y, j, attempts) == y && Failures(e, y, j, attempts) == 0
    ensures attempts != [] ==>
              var z, reply := AfterAttempt(e, y, j, attempts[0]), ReplyOf(e, y, j, attempts[0]);
              && AfterAttempts(e, y, j, attempts) == AfterAttempts(e, z, j, attempts[1..])
              && (AttemptsAlone(e, y, j, attempts) ==>
                    AttemptAlone(e, y, j, attempts[0]) && AttemptsAlone(e, z, j, attempts[1..]))
              && Failures(e, y, j, attempts) ==
                   (if reply.Some? && reply != Some(Done) then 1 else 0) + Failures(e, z, j, attempts[1..])
  {
    hide AttemptAlone, AfterAttempt, ReplyOf;
  }

  lemma OnePut(e: Env, y: System, j: Job, a: Attempt)
    requires Quiet(e, y) && JobOk(e, j) && AttemptAlone(e, y, j, a)
    ensures var z, reply := AfterAttempt(e, y, j, a), ReplyOf(e, y, j, a);
            && Quiet(e, z)
            && (reply.Some? && reply != Some(Done) ==>
                  !(Kept(y.store.disk, j) <= j.content) && Kept(z.store.disk, j) <= j.content)
            && (Kept(y.store.disk, j) <= j.content ==> Kept(z.store.disk, j) <= j.content)
  {
    hide Quiet, AfterAttempt, JobOk, AllSent, ChangeAt, Next, Handle, AttemptAlone;
    var kept := Kept(y.store.disk, j);
    if a.finishes {
      FinishedPut(e, y, j, a);
    } else {
      var n := InterruptedPutExtends(e, y, j, a);
      if kept <= j.content {
        assert Grown(kept, j.content, n) == j.content[..n];
      }
    }
  }
}
