/** Connection (src/connection.cpp): its handlers, statement by statement, against Handlers, and the login
    sessions kept in Redis (src/auth.cpp). */
module Serving {
  import opened Basics
  import opened Disk
  import opened Store
  import opened Keyspace
  import opened Service
  import opened Transfer
  import opened Sessions
  import opened Runs
  import Paths
  import Protocol
  import Text
  import H = Handlers

  /** The number under which a connection sees itself. */
  const OWN := 0

  class Connection {
    const service: TransferService
    /** The JSON texts of sessions, written and read. */
    const dump: Session -> string
    const parse: string -> Option<Session>
    /** session_ and authed_ */
    var session: Option<Session>
    var upload: Upload
    var download: Download

    ghost function Conn(): H.Conn
      reads this
    {
      H.Conn(session, upload, download)
    }

    ghost predicate Valid()
      reads this, service, service.redis
    {
      service.Valid()
    }

    constructor (service: TransferService, dump: Session -> string, parse: string -> Option<Session>)
      requires service.Valid()
      ensures Valid() && this.service == service && this.dump == dump && this.parse == parse
      ensures Conn() == H.FRESH_CONN
    {
      this.service, this.dump, this.parse := service, dump, parse;
      session, upload, download := None, NO_UPLOAD, NO_DOWNLOAD;
    }

    /** The key of a client's path. */
    method KeyOf(path: string) returns (k: Result<Key>)
      requires session.Some?
      ensures k == H.KeyOf(session.value, path)
    {
      var logical := Paths.NormalizeLogical(path);
      if logical.Err? {
        return Err(logical.code);
      }
      return Ok(Key(session.value.userId, "/" + logical.value));
    }

    // -------------------------------------------------------------- session

    method OnLogin(s: Session) returns (reply: H.Reply)
      requires Valid()
      modifies this`session, service.redis
      ensures Valid() && service.Sessions() == old(service.Sessions())[s.token := dump(s)]
      ensures service.redis.limits ==
              old(service.redis.limits)[Encode(SessionKey(s.token)) := service.env.config.sessionTtl]
      ensures H.Outcome(service.State(), Conn(), reply) ==
              H.Handle(service.env, old(service.State()), old(Conn()), H.Login(s))
    {
      service.redis.SetSession(s.token, dump(s), service.env.config.sessionTtl);
      session := Some(s);
      return H.Done;
    }

    method OnLogout() returns (reply: H.Reply)
      requires Valid()
      modifies this`session, service.redis
      ensures Valid() && session.None?
      ensures service.Sessions() == if old(session).Some? then old(service.Sessions()) - {old(session).value.token}
                                    else old(service.Sessions())
      ensures H.Outcome(service.State(), Conn(), reply) ==
              H.Handle(service.env, old(service.State()), old(Conn()), H.Logout)
    {
      if session.None? {
        return H.Refused(Unauthorized);
      }
      service.redis.DelSession(session.value.token);
      session := None;
      return H.Done;
    }

    /** AuthService::checkToken; a good token's time starts again. */
    method CheckToken(token: Token) returns (r: Result<Session>)
      requires Valid()
      modifies service.redis
      ensures Valid() && r == SessionOf(old(service.Sessions()), parse, token)
      ensures service.Sessions() == old(service.Sessions()) && service.State() == old(service.State())
      ensures r.Ok? ==>
        service.redis.limits == old(service.redis.limits)[Encode(SessionKey(token)) := service.env.config.sessionTtl]
    {
      if token == "" {
        return Err(Unauthorized);
      }
      var text := service.redis.GetSession(token);
      if text == "" {
        return Err(Unauthorized);
      }
      var s := parse(text);
      if s.None? {
        return Err(Unauthorized);
      }
      service.redis.SetSession(token, text, service.env.config.sessionTtl);
      assert service.Sessions() == old(service.Sessions());
      return Ok(s.value.(token := token));
    }

    // -------------------------------------------------------------- names

    method OnMkdir(path: string, phys: Result<string>, made: Result<()>) returns (reply: H.Reply)
      requires Valid()
      modifies service`rows
      ensures Valid()
      ensures H.Outcome(service.State(), Conn(), reply) ==
              H.Handle(service.env, old(service.State()), old(Conn()), H.Mkdir(path, phys, made))
    {
      if session.None? {
        return H.Refused(Unauthorized);
      }
      if phys.Err? {
        return H.Refused(phys.code);
      }
      var k := KeyOf(path);
      if k.Err? {
        return H.Refused(k.code);
      }
      if made.Err? {
        return H.Refused(made.code);
      }
      service.IndexFile(k.value, "", 0, true);
      return H.Done;
    }

    method OnRm(path: string, phys: Result<string>, node: Node) returns (reply: H.Reply)
      requires Valid()
      modifies service, service.redis
      ensures Valid() && service.Sessions() == old(service.Sessions())
      ensures H.Outcome(service.State(), Conn(), reply) ==
              H.Handle(service.env, old(service.State()), old(Conn()), H.Rm(path, phys, node))
    {
      hide H.KeyOf, RemovePath;
      if session.None? {
        return H.Refused(Unauthorized);
      }
      var k := KeyOf(path);
      if k.Err? {
        return H.Refused(k.code);
      }
      if k.value.path == "/" {
        return H.Refused(Forbidden);
      }
      if phys.Err? {
        return H.Refused(phys.code);
      }
      service.RemoveUserPath(k.value, node);
      return H.Done;
    }

    method OnRename(path: string, to: string, phys: Result<string>, moved: Result<nat>) returns (reply: H.Reply)
      requires Valid()
      modifies service`rows, service.redis
      ensures Valid() && service.Sessions() == old(service.Sessions())
      ensures H.Outcome(service.State(), Conn(), reply) ==
              H.Handle(service.env, old(service.State()), old(Conn()), H.Rename(path, to, phys, moved))
    {
      hide H.KeyOf, RenamePath;
      if session.None? {
        return H.Refused(Unauthorized);
      }
      var k := KeyOf(path);
      if k.Err? {
        return H.Refused(k.code);
      }
      var l := KeyOf(to);
      if l.Err? {
        return H.Refused(l.code);
      }
      if phys.Err? {
        return H.Refused(phys.code);
      }
      var error := service.RenameUserPath(k.value, l.value, moved);
      return if error.Some? then H.Refused(error.value) else H.Done;
    }

    // -------------------------------------------------------------- instant upload

    method OnInstantQuery(m: Md5, size: U64) returns (reply: H.Reply)
      requires Valid()
      modifies service.redis
      ensures Valid() && service.Sessions() == old(service.Sessions())
      ensures H.Outcome(service.State(), Conn(), reply) ==
              H.Handle(service.env, old(service.State()), old(Conn()), H.InstantQuery(m, size))
    {
      hide QueryInstant;
      if session.None? {
        return H.Refused(Unauthorized);
      }
      var q := service.QueryInstant(session.value.token, m, size);
      if q.Err? {
        return H.Refused(q.code);
      }
      return if q.value.Some? then H.Hit(q.value.value) else H.Miss;
    }

    method OnInstantUpload(path: string, phys: Result<string>, destExists: bool, claim: Claim, overwrite: bool)
      returns (reply: H.Reply)
      requires Valid()
      modifies service, service.redis
      ensures Valid() && service.Sessions() == old(service.Sessions())
      ensures H.Outcome(service.State(), Conn(), reply) ==
              H.Handle(service.env, old(service.State()), old(Conn()),
                  H.Instant(path, phys, destExists, claim, overwrite))
    {
      hide H.KeyOf, InstantUpload;
      if session.None? {
        return H.Refused(Unauthorized);
      }
      var k := KeyOf(path);
      if k.Err? {
        return H.Refused(k.code);
      }
      if phys.Err? {
        return H.Refused(phys.code);
      }
      var error := service.InstantUpload(session.value.token, k.value, claim, destExists, overwrite);
      return if error.Some? then H.Refused(error.value) else H.Done;
    }

    // -------------------------------------------------------------- upload

    method OnUploadBegin(path: string, phys: Result<string>, m: Md5, size: U64, fileId: FileId) returns (reply: H.Reply)
      requires Valid()
      modifies this`upload, service`disk
      ensures Valid()
      ensures H.Outcome(service.State(), Conn(), reply) ==
              H.Handle(service.env, old(service.State()), old(Conn()), H.UploadBegin(path, phys, m, size, fileId))
    {
      hide H.KeyOf, BeginUpload, BeginRefusal, Text.BaseName;
      if session.None? {
        return H.Refused(Unauthorized);
      }
      var k := KeyOf(path);
      if k.Err? {
        return H.Refused(k.code);
      }
      upload := upload.(fd := None);
      if phys.Err? {
        return H.Refused(phys.code);
      }
      var part := PartName(session.value.username, m, Text.BaseName(phys.value));
      var r := service.BeginUpload(part, k.value.path, m, size, fileId);
      if r.Err? {
        return H.Refused(r.code);
      }
      upload := r.value;
      return H.Begun(upload.received);
    }

    /** handleChunk answers only when it refuses. */
    method OnChunk(fileId: FileId, offset: U64, data: Bytes) returns (reply: H.Reply)
      requires Valid() && |data| < TWO_TO_THE_32
      modifies this`upload, service`disk
      ensures Valid()
      ensures H.Outcome(service.State(), Conn(), reply) ==
              H.Handle(service.env, old(service.State()), old(Conn()), H.UploadChunk(fileId, offset, data))
    {
      hide WriteChunk, WriteRefusal;
      if session.None? {
        return H.Refused(Unauthorized);
      }
      if upload.fileId == [] || fileId != upload.fileId {
        return H.Refused(BadRequest);
      }
      var error, after := service.WriteChunk(upload, offset, data);
      if error.Some? {
        return H.Refused(error.value);
      }
      upload := after;
      return H.Done;
    }

    method OnUploadEnd() returns (reply: H.Reply)
      requires Valid()
      modifies this`upload, service, service.redis
      ensures Valid() && service.Sessions() == old(service.Sessions())
      ensures H.Outcome(service.State(), Conn(), reply) ==
              H.Handle(service.env, old(service.State()), old(Conn()), H.UploadEnd)
    {
      hide FinishUpload, FinishRefusal, AfterRefusedFinish;
      if session.None? {
        return H.Refused(Unauthorized);
      }
      var error, after := service.FinishUpload(session.value.userId, upload);
      if error.Some? {
        upload := after;
        return H.Refused(error.value);
      }
      upload := NO_UPLOAD;
      return H.Done;
    }

    // -------------------------------------------------------------- download

    method OnDownloadBegin(path: string, phys: Result<string>, fileId: FileId) returns (reply: H.Reply)
      requires Valid()
      modifies this`download
      ensures Valid()
      ensures H.Outcome(service.State(), Conn(), reply) ==
              H.Handle(service.env, service.State(), old(Conn()), H.DownloadBegin(path, phys, fileId))
    {
      hide H.KeyOf, BeginDownload;
      if session.None? {
        return H.Refused(Unauthorized);
      }
      var k := KeyOf(path);
      if k.Err? {
        return H.Refused(k.code);
      }
      download := download.(fd := None);
      if phys.Err? {
        return H.Refused(phys.code);
      }
      var r := service.BeginDownload(k.value, fileId);
      if r.Err? {
        return H.Refused(r.code);
      }
      download := r.value;
      return H.Ready(download.total);
    }

    method OnDownloadChunk(fileId: FileId, offset: U64, length: U32, short: nat) returns (reply: H.Reply)
      requires Valid()
      ensures H.Outcome(service.State(), Conn(), reply) ==
              H.Handle(service.env, service.State(), Conn(), H.DownloadChunk(fileId, offset, length, short))
    {
      hide ReadChunk;
      if session.None? {
        return H.Refused(Unauthorized);
      }
      if download.fileId == [] || fileId != download.fileId {
        return H.Refused(BadRequest);
      }
      var want := length;
      if want == 0 || want > Protocol.MAX_FRAME_SIZE - 64 {
        want := service.env.config.chunkSize;
      }
      var data := service.ReadChunk(download, offset, want, short);
      if data.Err? {
        return H.Refused(data.code);
      }
      if data.value == [] {
        return H.Eof;
      }
      if 40 + |data.value| > Protocol.MAX_FRAME_SIZE {
        return H.Refused(PayloadTooLarge);
      }
      return H.Data(offset, data.value);
    }

    // -------------------------------------------------------------- dispatch

    /** The choice of a handler, and handleChunk. */
    method Serve(r: H.Request) returns (reply: H.Reply)
      requires Valid() && (r.UploadChunk? ==> |r.data| < TWO_TO_THE_32)
      modifies this, service, service.redis
      ensures Valid() && service.Sessions() == SessionsAfter(old(service.Sessions()), dump, old(Conn()), r)
      ensures H.Outcome(service.State(), Conn(), reply) ==
              H.Handle(service.env, old(service.State()), old(Conn()), r)
    {
      hide H.Handle;
      match r
      case Login(s) => reply := OnLogin(s);
      case Logout => reply := OnLogout();
      case Mkdir(path, phys, made) => reply := OnMkdir(path, phys, made);
      case Rm(path, phys, node) => reply := OnRm(path, phys, node);
      case Rename(path, to, phys, moved) => reply := OnRename(path, to, phys, moved);
      case InstantQuery(m, size) => reply := OnInstantQuery(m, size);
      case Instant(path, phys, destExists, claim, overwrite) =>
        reply := OnInstantUpload(path, phys, destExists, claim, overwrite);
      case UploadBegin(path, phys, m, size, fileId) => reply := OnUploadBegin(path, phys, m, size, fileId);
      case UploadChunk(fileId, offset, data) => reply := OnChunk(fileId, offset, data);
      case UploadEnd => reply := OnUploadEnd();
      case DownloadBegin(path, phys, fileId) => reply := OnDownloadBegin(path, phys, fileId);
      case DownloadChunk(fileId, offset, length, short) => reply := OnDownloadChunk(fileId, offset, length, short);
    }

    /** handleJson */
    method HandleJson(token: Token, r: H.Request) returns (reply: H.Reply)
      requires Valid() && (r.UploadChunk? ==> |r.data| < TWO_TO_THE_32)
      modifies this, service, service.redis
      ensures Valid()
      ensures var c := Resumed(old(service.Sessions()), parse, old(Conn()), token, r);
        && H.Outcome(service.State(), Conn(), reply) == H.Handle(service.env, old(service.State()), c, r)
        && service.Sessions() == SessionsAfter(old(service.Sessions()), dump, c, r)
    {
      hide H.Handle, SessionsAfter, TransferService.Valid;
      if session.None? && token != "" && !r.Login? {
        var who := CheckToken(token);
        if who.Err? {
          NeedsLogin(service.env, service.State(), Conn(), r, service.Sessions(), dump);
          return H.Refused(who.code);
        }
        session := Some(who.value);
      }
      reply := Serve(r);
    }

    /** handleFrame */
    method HandleFrame(f: Protocol.Frame, json: Bytes -> Option<(Token, H.Request)>) returns (reply: H.Reply)
      requires Valid() && Protocol.Legal(f)
      requires forall b: Bytes :: json(b).Some? ==> !json(b).value.1.UploadChunk?
      modifies this, service, service.redis
      ensures Valid()
      ensures match RequestIn(f, json)
        case None =>
          H.Outcome(service.State(), Conn(), reply) == H.Refuse(old(service.State()), old(Conn()), BadRequest)
          && service.Sessions() == old(service.Sessions())
        case Some((token, r)) =>
          var c := Resumed(old(service.Sessions()), parse, old(Conn()), token, r);
          && H.Outcome(service.State(), Conn(), reply) == H.Handle(service.env, old(service.State()), c, r)
          && service.Sessions() == SessionsAfter(old(service.Sessions()), dump, c, r)
      ensures forall chunk: Protocol.Chunk |
        f.kind == Protocol.CHUNK && |chunk.fileId| == 32 && f.payload == Protocol.ChunkPayload(chunk) ::
        && H.Outcome(service.State(), Conn(), reply) ==
           H.Handle(service.env, old(service.State()), old(Conn()),
                    H.UploadChunk(chunk.fileId, chunk.offset, chunk.data))
        && service.Sessions() == old(service.Sessions())
    {
      hide H.Handle, SessionsAfter, TransferService.Valid;
      ChunkInFrame(f, json, old(service.Sessions()), dump, parse, old(Conn()));
      if f.kind == Protocol.JSON {
        var decoded := json(f.payload);
        if decoded.None? {
          return H.Refused(BadRequest);
        }
        reply := HandleJson(decoded.value.0, decoded.value.1);
        return;
      }
      if f.kind == Protocol.CHUNK {
        var chunk := Protocol.DecodeChunk(f.payload);
        if chunk.None? {
          return H.Refused(BadRequest);
        }
        reply := Serve(H.UploadChunk(chunk.value.fileId, chunk.value.offset, chunk.value.data));
        return;
      }
      return H.Refused(BadRequest);
    }

    /** The server as this connection sees it. */
    ghost function Here(): Site
      reads this, service, service.redis
    {
      Site(System(service.State(), map[OWN := Conn()]), service.Sessions())
    }

    /** The frames of one onRead, in order. */
    method HandleFrames(frames: seq<Protocol.Frame>, json: Bytes -> Option<(Token, H.Request)>)
      requires Valid() && forall f | f in frames :: Protocol.Legal(f)
      requires forall b: Bytes :: json(b).Some? ==> !json(b).value.1.UploadChunk?
      modifies this, service, service.redis
      ensures Valid()
      ensures Here() == FramesNext(service.env, Codec(dump, parse, json), old(Here()), OWN, frames)
    {
      hide FrameNext, TransferService.Valid;
      ghost var x := Codec(dump, parse, json);
      for i := 0 to |frames|
        invariant Valid() && Here() == FramesNext(service.env, x, old(Here()), OWN, frames[..i])
      {
        assert frames[..i + 1][..i] == frames[..i];
        ghost var before := Here();
        var reply := HandleFrame(frames[i], json);
        OwnFrame(service.env, x, before, frames[i], Here(), reply);
      }
      assert frames[..|frames|] == frames;
    }
  }

  /** One frame on the one connection. */
  lemma OwnFrame(e: Env, x: Codec, y: Site, f: Protocol.Frame, z: Site, reply: H.Reply)
    requires y.system.conns.Keys == {OWN} == z.system.conns.Keys
    requires match RequestIn(f, x.json)
      case None =>
        H.Outcome(z.system.store, z.system.conns[OWN], reply) ==
        H.Refuse(y.system.store, y.system.conns[OWN], BadRequest) && z.sessions == y.sessions
      case Some((token, r)) =>
        var c := Resumed(y.sessions, x.parse, y.system.conns[OWN], token, r);
        && H.Outcome(z.system.store, z.system.conns[OWN], reply) == H.Handle(e, y.system.store, c, r)
        && z.sessions == SessionsAfter(y.sessions, x.dump, c, r)
    ensures z == FrameNext(e, x, y, OWN, f)
  {
    hide H.Handle;
    assert z.system.conns == y.system.conns[OWN := z.system.conns[OWN]];
    assert y.system.conns == map[OWN := y.system.conns[OWN]];
  }

  /** A chunk carries no token and touches no session. */
  lemma ChunkInFrame(f: Protocol.Frame, json: Bytes -> Option<(Token, H.Request)>, sessions: map<Token, string>,
                     dump: Session -> string, parse: string -> Option<Session>, c: H.Conn)
    ensures forall chunk: Protocol.Chunk |
      f.kind == Protocol.CHUNK && |chunk.fileId| == 32 && f.payload == Protocol.ChunkPayload(chunk) ::
      var r := H.UploadChunk(chunk.fileId, chunk.offset, chunk.data);
      && RequestIn(f, json) == Some(("", r)) && Resumed(sessions, parse, c, "", r) == c
      && SessionsAfter(sessions, dump, c, r) == sessions
  {
    RequestInIs(f, json);
  }

  lemma NeedsLogin(e: Env, s: Store, c: H.Conn, r: H.Request, sessions: map<Token, string>, dump: Session -> string)
    requires c.session.None? && !r.Login?
    ensures H.Handle(e, s, c, r) == H.Refuse(s, c, Unauthorized)
    ensures SessionsAfter(sessions, dump, c, r) == sessions
  {
  }
}
