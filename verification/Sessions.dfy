/** Login sessions and the requests that arrive on connections (src/auth.cpp, src/connection.cpp): what login and
    logout do to them, over runs of any number of connections. */
module Sessions {
  import opened Basics
  import opened Store
  import opened Transfer
  import opened Handlers
  import opened Runs
  import Protocol

  /** The session a token stands for: the `parse` of the text kept for it. */
  function SessionOf(sessions: map<Token, string>, parse: string -> Option<Session>, token: Token): Result<Session> {
    if token == "" || token !in sessions || sessions[token] == "" then Err(Unauthorized)
    else
      match parse(sessions[token])
      case None => Err(Unauthorized)
      case Some(s) => Ok(s.(token := token))
  }

  /** What a request makes of the sessions. */
  function SessionsAfter(sessions: map<Token, string>, dump: Session -> string, c: Conn, r: Request)
    : map<Token, string>
  {
    if r.Login? then sessions[r.session.token := dump(r.session)]
    else if r.Logout? && c.session.Some? then sessions - {c.session.value.token}
    else sessions
  }

  /** A connection without a session that sends a good token with any request but a login is logged in first. */
  function Resumed(sessions: map<Token, string>, parse: string -> Option<Session>, c: Conn, token: Token,
                   r: Request): Conn {
    var who := SessionOf(sessions, parse, token);
    if c.session.None? && !r.Login? && who.Ok? then c.(session := Some(who.value)) else c
  }

  /** The request in a frame and the token it carries; `json` decodes the payload of a JSON frame. */
  function RequestIn(f: Protocol.Frame, json: Bytes -> Option<(Token, Request)>): Option<(Token, Request)> {
    if f.kind == Protocol.JSON then json(f.payload)
    else if f.kind == Protocol.CHUNK then
      match Protocol.DecodeChunk(f.payload)
      case None => None
      case Some(chunk) => Some(("", UploadChunk(chunk.fileId, chunk.offset, chunk.data)))
    else None
  }

  /** A JSON frame is the request it decodes to, the frame of a chunk is that chunk at its own offset, and nothing
      else is a request. */
  lemma RequestInIs(f: Protocol.Frame, json: Bytes -> Option<(Token, Request)>)
    ensures f.kind == 0 ==> RequestIn(f, json) == json(f.payload)
    ensures forall c: Protocol.Chunk | f.kind == 1 && |c.fileId| == 32 && f.payload == Protocol.ChunkPayload(c) ::
              RequestIn(f, json) == Some(("", UploadChunk(c.fileId, c.offset, c.data)))
    ensures (f.kind == 1 && |f.payload| < 40) || f.kind > 1 ==> RequestIn(f, json) == None
  {
    forall c: Protocol.Chunk | f.kind == 1 && |c.fileId| == 32 && f.payload == Protocol.ChunkPayload(c)
      ensures RequestIn(f, json) == Some(("", UploadChunk(c.fileId, c.offset, c.data)))
    {
      Protocol.DecodeChunkOfPayload(c);
    }
  }

  // ---------------------------------------------------------------- the server with its sessions

  /** How JSON texts are written and read: sessions kept in Redis, and requests with their tokens. */
  datatype Codec = Codec(dump: Session -> string, parse: string -> Option<Session>,
                         json: Bytes -> Option<(Token, Request)>)

  datatype Site = Site(system: System, sessions: map<Token, string>)

  /** A connection comes or goes, a challenge or a session reaches its expiry, or a request arrives. */
  datatype Event =
    | Open(id: int)
    | Drop(id: int)
    | ChallengeOver(token: Token, md5: Md5)
    | SessionOver(token: Token)
    | Ask(id: int, token: Token, request: Request)

  /** The connection on which the request is served. */
  function Served(x: Codec, y: Site, ev: Event): Conn
    requires ev.Ask? && ev.id in y.system.conns
  {
    Resumed(y.sessions, x.parse, y.system.conns[ev.id], ev.token, ev.request)
  }

  function Reply(e: Env, x: Codec, y: Site, ev: Event): Handlers.Reply
    requires ev.Ask? && ev.id in y.system.conns
  {
    Handle(e, y.system.store, Served(x, y, ev), ev.request).reply
  }

  function SiteNext(e: Env, x: Codec, y: Site, ev: Event): Site {
    match ev
    case Open(id) => y.(system := Next(e, y.system, Accept(id)))
    case Drop(id) => y.(system := Next(e, y.system, Close(id)))
    case ChallengeOver(token, m) => y.(system := Next(e, y.system, Expire(token, m)))
    case SessionOver(token) => y.(sessions := y.sessions - {token})
    case Ask(id, token, r) =>
      if id !in y.system.conns then y
      else
        var c := Served(x, y, ev);
        var o := Handle(e, y.system.store, c, r);
        Site(System(o.store, y.system.conns[id := o.conn]), SessionsAfter(y.sessions, x.dump, c, r))
  }

  function SiteRun(e: Env, x: Codec, y: Site, evs: seq<Event>): Site {
    if evs == [] then y else SiteNext(e, x, SiteRun(e, x, y, evs[..|evs| - 1]), evs[|evs| - 1])
  }

  /** Every event is a run of the system: a request with a good token is the login and then the request. */
  lemma EventIsRun(e: Env, x: Codec, y: Site, ev: Event) returns (ls: seq<Label>)
    ensures SiteNext(e, x, y, ev).system == Run(e, y.system, ls)
  {
    match ev
    case Open(id) => ls := OneStep(e, y.system, Accept(id));
    case Drop(id) => ls := OneStep(e, y.system, Close(id));
    case ChallengeOver(token, m) => ls := OneStep(e, y.system, Expire(token, m));
    case SessionOver(token) => ls := [];
    case Ask(id, token, r) =>
      if id !in y.system.conns {
        ls := [];
      } else if Served(x, y, ev) == y.system.conns[id] {
        ls := OneStep(e, y.system, Send(id, r));
      } else {
        hide Perform, Parse, Run;
        var s := Served(x, y, ev).session.value;
        ls := TwoSteps(e, y.system, Send(id, Login(s)), Send(id, r));
        assert Next(e, y.system, Send(id, Login(s))) ==
               y.system.(conns := y.system.conns[id := y.system.conns[id].(session := Some(s))]);
      }
  }

  lemma OneStep(e: Env, y: System, l: Label) returns (ls: seq<Label>)
    ensures ls == [l] && Run(e, y, ls) == Next(e, y, l)
  {
    hide Next;
    ls := [l];
    assert ls[..0] == [];
  }

  lemma TwoSteps(e: Env, y: System, a: Label, b: Label) returns (ls: seq<Label>)
    ensures ls == [a, b] && Run(e, y, ls) == Next(e, Next(e, y, a), b)
  {
    hide Next;
    ls := [a, b];
    var first := OneStep(e, y, a);
    assert ls[..1] == first;
  }

  /** A frame that arrives; one that holds no request is answered with BadRequest and changes nothing. */
  function FrameNext(e: Env, x: Codec, y: Site, id: int, f: Protocol.Frame): Site {
    match RequestIn(f, x.json)
    case None => y
    case Some(asked) => SiteNext(e, x, y, Ask(id, asked.0, asked.1))
  }

  function FramesNext(e: Env, x: Codec, y: Site, id: int, frames: seq<Protocol.Frame>): Site {
    if frames == [] then y
    else FrameNext(e, x, FramesNext(e, x, y, id, frames[..|frames| - 1]), id, frames[|frames| - 1])
  }

  // ---------------------------------------------------------------- login and logout

  /** A login sets the connection's session and keeps its text under its token, and nothing else. */
  lemma LoginBegins(e: Env, x: Codec, y: Site, id: int, token: Token, s: Session)
    requires id in y.system.conns
    ensures var z := SiteNext(e, x, y, Ask(id, token, Login(s)));
            && Reply(e, x, y, Ask(id, token, Login(s))) == Done
            && z.system == y.system.(conns := y.system.conns[id := y.system.conns[id].(session := Some(s))])
            && z.sessions == y.sessions[s.token := x.dump(s)]
  {
  }

  /** A logout by a connection that is logged in, or sends a good token, takes the session from the connection and
      the token from Redis, and changes nothing else. */
  lemma LogoutEnds(e: Env, x: Codec, y: Site, id: int, token: Token)
    requires id in y.system.conns && Served(x, y, Ask(id, token, Logout)).session.Some?
    ensures var s := Served(x, y, Ask(id, token, Logout)).session.value;
            var z := SiteNext(e, x, y, Ask(id, token, Logout));
            && Reply(e, x, y, Ask(id, token, Logout)) == Done
            && z.system == y.system.(conns := y.system.conns[id := y.system.conns[id].(session := None)])
            && s.token !in z.sessions && (forall t | t != s.token && t in y.sessions :: t in z.sessions)
            && SessionOf(z.sessions, x.parse, s.token) == Err(Unauthorized)
            && (y.system.conns[id].session.Some? ==> s == y.system.conns[id].session.value)
            && (y.system.conns[id].session.None? ==> s.token == token)
  {
  }

  /** Without a session and without a good token every request but a login is refused and changes nothing. */
  lemma StrangerIsRefused(e: Env, x: Codec, y: Site, id: int, token: Token, r: Request)
    requires id in y.system.conns && y.system.conns[id].session.None? && !r.Login?
    requires SessionOf(y.sessions, x.parse, token).Err?
    ensures Reply(e, x, y, Ask(id, token, r)) == Refused(Unauthorized)
    ensures SiteNext(e, x, y, Ask(id, token, r)) == y
  {
    assert y.system.conns[id := y.system.conns[id]] == y.system.conns;
  }

  /** Which sessions a token stands for: a text has to be kept for it that reads as a session. */
  lemma GoodToken(sessions: map<Token, string>, parse: string -> Option<Session>, token: Token)
    ensures SessionOf(sessions, parse, token).Ok? <==>
              token != "" && token in sessions && sessions[token] != "" && parse(sessions[token]).Some?
    ensures SessionOf(sessions, parse, token).Ok? ==>
              var s, kept := SessionOf(sessions, parse, token).value, parse(sessions[token]).value;
              s.token == token && s.userId == kept.userId && s.username == kept.username
    ensures SessionOf(sessions, parse, token).Err? ==> SessionOf(sessions, parse, token) == Err(Unauthorized)
  {
  }

  /** A request with a good token on a connection without a session is served as that session's, and the connection
      keeps the session unless the request is a logout. */
  lemma TokenResumes(e: Env, x: Codec, y: Site, id: int, token: Token, r: Request)
    requires id in y.system.conns && y.system.conns[id].session.None? && !r.Login?
    requires SessionOf(y.sessions, x.parse, token).Ok?
    ensures var s := SessionOf(y.sessions, x.parse, token).value;
            var c := y.system.conns[id].(session := Some(s));
            var z := SiteNext(e, x, y, Ask(id, token, r));
            && Reply(e, x, y, Ask(id, token, r)) == Handle(e, y.system.store, c, r).reply
            && z.system == System(Handle(e, y.system.store, c, r).store,
                                  y.system.conns[id := Handle(e, y.system.store, c, r).conn])
  {
  }

  // ---------------------------------------------------------------- over runs

  /** The event keeps a session under the token. */
  predicate Grants(ev: Event, token: Token) {
    ev.Ask? && ev.request.Login? && ev.request.session.token == token
  }

  /** A token that is in no session stays so, and is refused everywhere, until a login sets it again. */
  lemma {:induction false} TokenStaysDead(e: Env, x: Codec, y: Site, evs: seq<Event>, token: Token)
    requires token !in y.sessions && forall ev | ev in evs :: !Grants(ev, token)
    ensures token !in SiteRun(e, x, y, evs).sessions
    ensures SessionOf(SiteRun(e, x, y, evs).sessions, x.parse, token) == Err(Unauthorized)
  {
    hide Handle, Next;
    if evs != [] {
      var init, last := evs[..|evs| - 1], evs[|evs| - 1];
      assert evs == init + [last] && last in evs && forall ev | ev in init :: ev in evs;
      TokenStaysDead(e, x, y, init, token);
    }
  }

  /** The event is a login on the connection, or carries a token that is good at that moment. */
  predicate Admits(x: Codec, y: Site, ev: Event, id: int) {
    ev.Ask? && ev.id == id && (ev.request.Login? || SessionOf(y.sessions, x.parse, ev.token).Ok?)
  }

  lemma NobodyStays(e: Env, x: Codec, y: Site, ev: Event, id: int)
    requires id in y.system.conns ==> y.system.conns[id].session.None?
    requires !Admits(x, y, ev, id)
    ensures id in SiteNext(e, x, y, ev).system.conns ==> SiteNext(e, x, y, ev).system.conns[id].session.None?
  {
    if ev.Ask? && ev.id == id && id in y.system.conns {
      StrangerIsRefused(e, x, y, id, ev.token, ev.request);
    }
    hide Handle;
  }

  /** A connection that is logged out stays so, and with StrangerIsRefused every request on it is refused, until a
      login or a good token arrives on it. */
  lemma {:induction false} StaysLoggedOut(e: Env, x: Codec, y: Site, evs: seq<Event>, id: int)
    requires id in y.system.conns ==> y.system.conns[id].session.None?
    requires forall n | 0 <= n < |evs| :: !Admits(x, SiteRun(e, x, y, evs[..n]), evs[n], id)
    ensures var z := SiteRun(e, x, y, evs); id in z.system.conns ==> z.system.conns[id].session.None?
  {
    hide SiteNext, Admits;
    if evs != [] {
      var init, last := evs[..|evs| - 1], evs[|evs| - 1];
      forall n | 0 <= n < |init| ensures !Admits(x, SiteRun(e, x, y, init[..n]), init[n], id) {
        assert init[..n] == evs[..n] && init[n] == evs[n];
      }
      assert !Admits(x, SiteRun(e, x, y, evs[..|evs| - 1]), evs[|evs| - 1], id);
      StaysLoggedOut(e, x, y, init, id);
      NobodyStays(e, x, SiteRun(e, x, y, init), last, id);
    }
  }

  /** The logout as a whole: afterwards, over any run in which nobody logs in with the old token and the connection
      gets no login and no good token, each request that carries the old token, or none, is refused on it. */
  lemma LoggedOutForGood(e: Env, x: Codec, y: Site, id: int, evs: seq<Event>, token: Token, r: Request)
    requires id in y.system.conns && y.system.conns[id].session.Some? && !r.Login?
    requires var spent, z := y.system.conns[id].session.value.token, SiteNext(e, x, y, Ask(id, "", Logout));
             && (token == "" || token == spent)
             && (forall ev | ev in evs :: !Grants(ev, spent))
             && (forall n | 0 <= n < |evs| :: !Admits(x, SiteRun(e, x, z, evs[..n]), evs[n], id))
             && id in SiteRun(e, x, z, evs).system.conns
    ensures var z := SiteRun(e, x, SiteNext(e, x, y, Ask(id, "", Logout)), evs);
            Reply(e, x, z, Ask(id, token, r)) == Refused(Unauthorized) && SiteNext(e, x, z, Ask(id, token, r)) == z
  {
    hide SiteNext, SiteRun, Admits, Reply;
    var z := SiteNext(e, x, y, Ask(id, "", Logout));
    LogoutEnds(e, x, y, id, "");
    TokenStaysDead(e, x, z, evs, y.system.conns[id].session.value.token);
    StaysLoggedOut(e, x, z, evs, id);
    StrangerIsRefused(e, x, SiteRun(e, x, z, evs), id, token, r);
  }

  /** The event ends the sessions of the token, or logs somebody in under it. */
  predicate Touches(x: Codec, y: Site, ev: Event, token: Token) {
    || Grants(ev, token)
    || ev == SessionOver(token)
    || (ev.Ask? && ev.request.Logout? && ev.id in y.system.conns && Served(x, y, ev).session.Some?
        && Served(x, y, ev).session.value.token == token)
  }

  /** A token that was set by a login stands for that session, on every connection, until it is logged out, expires
      or is set again. */
  lemma {:induction false} TokenLives(e: Env, x: Codec, y: Site, evs: seq<Event>, s: Session)
    requires s.token != "" && s.token in y.sessions && y.sessions[s.token] == x.dump(s)
    requires x.dump(s) != "" && x.parse(x.dump(s)) == Some(s)
    requires forall n | 0 <= n < |evs| :: !Touches(x, SiteRun(e, x, y, evs[..n]), evs[n], s.token)
    ensures var kept := SiteRun(e, x, y, evs).sessions;
            s.token in kept && kept[s.token] == x.dump(s) && SessionOf(kept, x.parse, s.token) == Ok(s)
  {
    hide Handle, Next;
    if evs != [] {
      var init, last := evs[..|evs| - 1], evs[|evs| - 1];
      forall n | 0 <= n < |init| ensures !Touches(x, SiteRun(e, x, y, init[..n]), init[n], s.token) {
        assert init[..n] == evs[..n] && init[n] == evs[n];
      }
      assert !Touches(x, SiteRun(e, x, y, evs[..|evs| - 1]), evs[|evs| - 1], s.token);
      TokenLives(e, x, y, init, s);
    }
  }
}
