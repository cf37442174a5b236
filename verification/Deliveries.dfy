/** From the wire to the part: chunks that a client encodes, in whatever pieces the socket delivers them, against the
    bytes the server writes (src/protocol.cpp, Connection::onRead and handleFrame in src/connection.cpp). */
module Deliveries {
  import opened Basics
  import opened Disk
  import opened Store
  import opened Transfer
  import opened Handlers
  import opened Runs
  import opened Uploads
  import opened Protocol
  import opened Framing
  import opened Sessions
  import opened Requests
  import Serving

  // ---------------------------------------------------------------- one frame

  /** A chunk frame is the step of that chunk, with the chunk's own id, offset and bytes. */
  lemma ChunkFrame(e: Env, x: Codec, y: Site, id: int, c: Chunk, flags: U16)
    requires |c.fileId| == 32
    ensures var z := FrameNext(e, x, y, id, Frame(1, flags, ChunkPayload(c)));
            z.system == Next(e, y.system, Send(id, UploadChunk(c.fileId, c.offset, c.data))) && z.sessions == y.sessions
  {
    hide Handle;
    RequestInIs(Frame(1, flags, ChunkPayload(c)), x.json);
    assert SessionOf(y.sessions, x.parse, "").Err?;
  }

  /** A JSON frame is the request it decodes to; a text that decodes to nothing, a payload too short for a chunk and
      an unknown kind of frame change nothing. */
  lemma OtherFrame(e: Env, x: Codec, y: Site, id: int, f: Frame)
    requires f.kind != 1 || |f.payload| < 40
    ensures FrameNext(e, x, y, id, f) ==
              if f.kind == 0 && x.json(f.payload).Some?
              then SiteNext(e, x, y, Ask(id, x.json(f.payload).value.0, x.json(f.payload).value.1))
              else y
  {
    hide SiteNext;
    RequestInIs(f, x.json);
  }

  // ---------------------------------------------------------------- one chunk

  lemma OneFrame(e: Env, x: Codec, y: Site, id: int, f: Frame)
    ensures FramesNext(e, x, y, id, [f]) == FrameNext(e, x, y, id, f)
  {
    hide FrameNext;
    assert [f][..0] == [];
  }

  /** A chunk that its upload accepts, cut in any way on the wire, is written at its offset and nowhere else. */
  lemma ChunkIsWritten(e: Env, x: Codec, y: Site, id: int, c: Chunk, arrivals: seq<Bytes>)
    requires |c.fileId| == 32 && 40 + |c.data| <= MAX_FRAME_SIZE
    requires Concat(arrivals) == Wire(Frame(CHUNK, 0, ChunkPayload(c)))
    requires id in y.system.conns && y.system.conns[id].session.Some?
    requires var up := y.system.conns[id].upload;
             && up.fd.Some? && up.fd.value < |y.system.store.disk.inodes|
             && up.fileId == c.fileId && c.offset + |c.data| <= up.total && c.offset < TWO_TO_THE_63
    ensures var d, up := y.system.store.disk, y.system.conns[id].upload;
            var z := FramesNext(e, x, y, id, Feed(arrivals).frames);
            && z.system.store == y.system.store.(disk := d.(
                 inodes := d.inodes[up.fd.value := Overlay(d.inodes[up.fd.value], c.offset, c.data)]))
            && z.sessions == y.sessions
            && z.system.conns == y.system.conns[id := y.system.conns[id].(
                 upload := up.(received := Max(up.received, c.offset + |c.data|)))]
  {
    hide Overlay, Wire, ChunkPayload, Handle;
    var f := Frame(CHUNK, 0, ChunkPayload(c));
    WholeFrame(f, arrivals, c);
    OneFrame(e, x, y, id, f);
    ChunkFrame(e, x, y, id, c, 0);
    ChunkDecided(e, y.system.store, y.system.conns[id], c.fileId, c.offset, c.data);
  }

  /** One frame, cut in any way, is delivered as it is. */
  lemma WholeFrame(f: Frame, arrivals: seq<Bytes>, c: Chunk)
    requires |c.fileId| == 32 && 40 + |c.data| <= MAX_FRAME_SIZE && f == Frame(CHUNK, 0, ChunkPayload(c))
    requires Concat(arrivals) == Wire(f)
    ensures Feed(arrivals).frames == [f]
  {
    hide Wire;
    WireAllCons(f, []);
    assert [f] + [] == [f] && Wire(f) + WireAll([]) == Wire(f);
    var n := LegalStreamDelivered([f], arrivals);
  }

  // ---------------------------------------------------------------- a whole content

  /** The frames of the sending loop of CloudClient::put from `sent` on. */
  function ChunkFrames(j: Job, fileId: FileId, sent: nat): (r: seq<Frame>)
    requires j.chunk > 0 && |j.content| < TWO_TO_THE_63
    ensures r == [] <==> sent >= |j.content|
    decreases |j.content| - sent
  {
    if sent >= |j.content| then []
    else
      var n := Want(j, sent);
      [Frame(CHUNK, 0, ChunkPayload(Chunk(fileId, sent, j.content[sent..sent + n])))] + ChunkFrames(j, fileId, sent + n)
  }

  lemma {:induction false} ChunkFramesAreLegal(j: Job, fileId: FileId, sent: nat)
    requires 1 <= j.chunk <= MAX_FRAME_SIZE - 40 && |j.content| < TWO_TO_THE_63 && |fileId| == 32
    ensures AllLegal(ChunkFrames(j, fileId, sent))
    decreases |j.content| - sent
  {
    if sent < |j.content| {
      ChunkFramesAreLegal(j, fileId, sent + Want(j, sent));
    }
  }

  lemma {:induction false} FramesJoin(e: Env, x: Codec, y: Site, id: int, a: seq<Frame>, b: seq<Frame>)
    ensures FramesNext(e, x, y, id, a + b) == FramesNext(e, x, FramesNext(e, x, y, id, a), id, b)
  {
    hide FrameNext;
    if b == [] {
      assert a + b == a;
    } else {
      FramesJoin(e, x, y, id, a, b[..|b| - 1]);
      assert (a + b)[..|a + b| - 1] == a + b[..|b| - 1] && (a + b)[|a + b| - 1] == b[|b| - 1];
    }
  }

  /** The site holds the part at `n` bytes of the put. */
  ghost predicate Arrived(e: Env, y: Site, z: Site, id: int, j: Job, fileId: FileId, kept: Bytes, n: nat)
    requires |kept| <= n <= |j.content|
  {
    Quiet(e, z.system) && Holds(z.system, id, j, fileId, Grown(kept, j.content, n)) && z.sessions == y.sessions
  }

  lemma OneArrives(e: Env, x: Codec, y: Site, id: int, j: Job, fileId: FileId, kept: Bytes, sent: nat)
    requires j.chunk > 0 && |kept| <= sent < |j.content| < TWO_TO_THE_63 && |fileId| == 32
    requires Arrived(e, y, y, id, j, fileId, kept, sent)
    ensures Arrived(e, y, FrameNext(e, x, y, id, ChunkFrames(j, fileId, sent)[0]), id, j, fileId, kept,
              sent + Want(j, sent))
  {
    hide Quiet, Holds, Next, Grown, Want, FrameNext;
    var data := j.content[sent..sent + Want(j, sent)];
    assert |data| == Want(j, sent) && data != [];
    ChunkFrame(e, x, y, id, Chunk(fileId, sent, data), 0);
    GrowsBy(kept, j.content, sent, Want(j, sent));
    ChunkHolds(e, y.system, id, j, fileId, Grown(kept, j.content, sent), data);
  }

  /** After the first `k` frames the part has grown by what they carry. */
  lemma {:induction false} SomeArrive(e: Env, x: Codec, y: Site, id: int, j: Job, fileId: FileId, kept: Bytes,
                                      sent: nat, k: nat) returns (n: nat)
    requires j.chunk > 0 && |kept| <= sent <= |j.content| < TWO_TO_THE_63 && |fileId| == 32
    requires Arrived(e, y, y, id, j, fileId, kept, sent) && k <= |ChunkFrames(j, fileId, sent)|
    ensures sent <= n <= |j.content| && (k == |ChunkFrames(j, fileId, sent)| ==> n == |j.content|)
    ensures Arrived(e, y, FramesNext(e, x, y, id, ChunkFrames(j, fileId, sent)[..k]), id, j, fileId, kept, n)
    decreases k
  {
    hide Arrived, FrameNext, Want;
    var frames := ChunkFrames(j, fileId, sent);
    if k == 0 {
      n := sent;
      assert frames[..0] == [];
    } else {
      var later := ChunkFrames(j, fileId, sent + Want(j, sent));
      var z := FrameNext(e, x, y, id, frames[0]);
      OneArrives(e, x, y, id, j, fileId, kept, sent);
      ArrivedHere(e, y, z, id, j, fileId, kept, sent + Want(j, sent));
      n := SomeArrive(e, x, z, id, j, fileId, kept, sent + Want(j, sent), k - 1);
      assert frames[..k] == [frames[0]] + later[..k - 1];
      OneFrame(e, x, y, id, frames[0]);
      FramesJoin(e, x, y, id, [frames[0]], later[..k - 1]);
      ArrivedThere(e, y, z, FramesNext(e, x, z, id, later[..k - 1]), id, j, fileId, kept, sent + Want(j, sent), n);
    }
  }

  lemma ArrivedHere(e: Env, y: Site, z: Site, id: int, j: Job, fileId: FileId, kept: Bytes, n: nat)
    requires |kept| <= n <= |j.content| && Arrived(e, y, z, id, j, fileId, kept, n)
    ensures Arrived(e, z, z, id, j, fileId, kept, n)
  {
  }

  lemma ArrivedThere(e: Env, y: Site, z: Site, w: Site, id: int, j: Job, fileId: FileId, kept: Bytes, m: nat, n: nat)
    requires |kept| <= m <= |j.content| && |kept| <= n <= |j.content|
    requires Arrived(e, y, z, id, j, fileId, kept, m) && Arrived(e, z, w, id, j, fileId, kept, n)
    ensures Arrived(e, y, w, id, j, fileId, kept, n)
  {
  }

  /** Whatever part of the client's stream has arrived, in whatever pieces, the part on the server is what it kept and
      the content from there on; when all of it has arrived, it is the content to the end. */
  lemma ContentArrives(e: Env, x: Codec, y: Site, id: int, j: Job, fileId: FileId, kept: Bytes, arrivals: seq<Bytes>)
    returns (n: nat)
    requires JobOk(e, j) && j.chunk > 0 && |j.content| < TWO_TO_THE_63 && |fileId| == 32 && |kept| <= |j.content|
    requires Quiet(e, y.system) && Holds(y.system, id, j, fileId, kept)
    requires Concat(arrivals) <= WireAll(ChunkFrames(j, fileId, |kept|))
    ensures |kept| <= n <= |j.content|
    ensures var z := FramesNext(e, x, y, id, Feed(arrivals).frames);
            && Quiet(e, z.system) && Holds(z.system, id, j, fileId, Grown(kept, j.content, n))
            && z.sessions == y.sessions
    ensures Concat(arrivals) == WireAll(ChunkFrames(j, fileId, |kept|)) ==> n == |j.content|
  {
    hide JobOk, Quiet, Holds, FramesNext, WireAll, Grown;
    ChunkSizes(e, j);
    NothingGrown(kept, j.content);
    var frames := ChunkFrames(j, fileId, |kept|);
    ChunkFramesAreLegal(j, fileId, |kept|);
    var k := LegalStreamDelivered(frames, arrivals);
    n := SomeArrive(e, x, y, id, j, fileId, kept, |kept|, k);
    assert frames[..k] == frames ==> k == |frames|;
  }

  lemma ChunkSizes(e: Env, j: Job)
    requires JobOk(e, j)
    ensures 1 <= j.chunk <= MAX_FRAME_SIZE - 40
  {
  }

  // ---------------------------------------------------------------- the connection

  lemma {:induction false} DrainedAreLegal(buf: Bytes)
    ensures forall f | f in Drain(buf).frames :: Legal(f)
    decreases |buf|
  {
    if HeadOf(buf).Whole? {
      DrainedAreLegal(buf[HeadOf(buf).size..]);
    }
  }

  /** A connection that reads the arrivals serves exactly the frames that they complete. */
  method ServeArrivals(conn: Serving.Connection, arrivals: seq<Bytes>, json: Bytes -> Option<(Token, Request)>)
    returns (reader: FrameReader)
    requires conn.Valid()
    requires forall b: Bytes :: json(b).Some? ==> !json(b).value.1.UploadChunk?
    modifies conn, conn.service, conn.service.redis
    ensures conn.Valid() && fresh(reader)
    ensures Drained(reader.handled, reader.input, reader.open) == Feed(arrivals)
    ensures conn.Here() == FramesNext(conn.service.env, Codec(conn.dump, conn.parse, json), old(conn.Here()),
                                      Serving.OWN, Feed(arrivals).frames)
  {
    hide Serving.Connection.Valid, FramesNext;
    reader := Receive(arrivals);
    CutsDoNotMatter(arrivals);
    DrainedAreLegal(Concat(arrivals));
    conn.HandleFrames(reader.handled, json);
  }
}
