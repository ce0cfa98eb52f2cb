/**
 What the dispatcher keeps over every run of requests, of any number of clients that share
 the sessions: how many responses a request gets, and the life of each managed media, which
 follows a small state table.
 */
module DispatchRuns {
  import opened Basics
  import opened DispatchModel

  // --------------------------------------------------------------- how many responses

  /**
   A request gets one response, except exactly this one: a multicast SETUP of a media its
   session already manages, from a client that SETUP does not authenticate and that no
   default token and no credentials of its own let in.
   */
  lemma OneReplyExactly(c: Config, w: World, r: Request, a: Answers)
    requires AnswersOk(w, r, a)
    ensures 1 <= |Replies(c, w, r, a)| <= 2
    ensures |Replies(c, w, r, a)| == 2 <==>
            && c.auth.Some? && !c.auth.value.defaultToken && !a.credentials
            && Setup !in c.auth.value.methods
            && r.verb.Setup? && r.multicast && TargetOf(w, r).Some?
            && Prelude(c, w, r, a) == OK && SetupBeforeTransport(c, w, r, a) == OK
  {
    if r.verb.Setup? && SetupChallenged(c, w, r, a) && TargetOf(w, r).None? {
      assert false;
    }
  }

  lemma OneReply(c: Config, w: World, r: Request, a: Answers)
    requires AnswersOk(w, r, a)
    requires c.auth.None? || c.auth.value.defaultToken || Setup in c.auth.value.methods
    ensures Replies(c, w, r, a) == [Answer(c, w, r, a)]
  {
    OneReplyExactly(c, w, r, a);
  }

  // ------------------------------------------------------------- the life of one media

  ghost predicate Unique(ms: seq<Managed>) {
    forall i, j :: 0 <= i < j < |ms| ==> ms[i].path != ms[j].path
  }

  /** The state of the media a session manages under exactly this path. */
  function Lookup(ms: seq<Managed>, p: string): Option<RtspState> {
    if ms == [] then None
    else if ms[0].path == p then Some(ms[0].state)
    else Lookup(ms[1..], p)
  }

  function StateIn(sessions: map<SessionId, seq<Managed>>, s: SessionId, p: string): Option<RtspState> {
    if s in sessions then Lookup(sessions[s], p) else None
  }

  function StateOf(w: World, s: SessionId, p: string): Option<RtspState> {
    StateIn(w.sessions, s, p)
  }

  lemma {:induction false} LookupAt(ms: seq<Managed>, i: nat)
    requires Unique(ms) && i < |ms|
    ensures Lookup(ms, ms[i].path) == Some(ms[i].state)
  {
    if i > 0 {
      LookupAt(ms[1..], i - 1);
    }
  }

  lemma {:induction false} LookupMissing(ms: seq<Managed>, p: string)
    ensures Lookup(ms, p).None? <==> forall i :: 0 <= i < |ms| ==> ms[i].path != p
  {
    if ms != [] {
      LookupMissing(ms[1..], p);
      assert forall i :: 0 < i < |ms| ==> ms[i] == ms[1..][i - 1];
    }
  }

  lemma {:induction false} LookupUpdate(ms: seq<Managed>, i: nat, st: RtspState, p: string)
    requires Unique(ms) && i < |ms|
    ensures Lookup(ms[i := ms[i].(state := st)], p) == if p == ms[i].path then Some(st) else Lookup(ms, p)
  {
    var next := ms[i := ms[i].(state := st)];
    if i == 0 {
      assert next[1..] == ms[1..];
    } else {
      LookupUpdate(ms[1..], i - 1, st, p);
      assert next[1..] == ms[1..][i - 1 := ms[i].(state := st)];
    }
  }

  lemma {:induction false} LookupRemove(ms: seq<Managed>, i: nat, p: string)
    requires Unique(ms) && i < |ms|
    ensures Lookup(ms[..i] + ms[i + 1..], p) == if p == ms[i].path then None else Lookup(ms, p)
  {
    var next := ms[..i] + ms[i + 1..];
    if i == 0 {
      assert next == ms[1..];
      LookupMissing(ms[1..], ms[0].path);
    } else {
      LookupRemove(ms[1..], i - 1, p);
      assert next[1..] == ms[1..][..i - 1] + ms[1..][i..];
    }
  }

  /** Each session manages media under paths of their own, none recording. */
  ghost predicate AllOk(sessions: map<SessionId, seq<Managed>>) {
    forall s :: s in sessions ==> SessionOk(sessions[s])
  }

  ghost predicate SessionOk(ms: seq<Managed>) {
    Unique(ms) && forall i :: 0 <= i < |ms| ==> !ms[i].state.Recording?
  }

  ghost predicate Invariant(w: World) {
    AllOk(w.sessions)
  }

  /**
   The state table. Section A.2 of RFC 2326 has RECORD enter a recording state; here it
   enters the same state as PLAY.
   */
  function Next(st: Option<RtspState>, verb: Method): Option<RtspState> {
    match verb
    case Setup => if st == None || st == Some(Init) then Some(Ready) else st
    case Play => Some(Playing)
    case Record => Some(Playing)
    case Pause => Some(Ready)
    case Teardown => None
    case _ => st
  }

  predicate Allowed(st: Option<RtspState>, verb: Method) {
    match verb
    case Play => st == Some(Ready) || st == Some(Playing)
    case Record => st == Some(Ready) || st == Some(Playing)
    case Pause => st == Some(Playing)
    case Teardown => st.Some?
    case _ => true
  }

  /** The session and the path a request moves, if it gets that far. */
  function Subject(w: World, r: Request, a: Answers): Option<(SessionId, string)>
    requires AnswersOk(w, r, a)
  {
    if !r.uri.Path? then None
    else if r.verb.Setup? then
      if TargetOf(w, r).Some? then Some((SessionOf(w, r).value, Target(w, r).path))
      else if a.mount.None? || (SessionOf(w, r).None? && a.newSession.None?) then None
      else Some((SessionFor(SessionOf(w, r), a), r.uri.path[..a.mount.value]))
    else if r.verb in {Play, Record, Pause, Teardown} && TargetOf(w, r).Some? then
      Some((SessionOf(w, r).value, r.uri.path))
    else None
  }

  /** A SETUP refused for its transport after a session it did not make took the media. */
  predicate RefusedLate(c: Config, w: World, r: Request, a: Answers)
    requires AnswersOk(w, r, a)
  {
    && Prelude(c, w, r, a) == OK && r.verb.Setup? && SetupBeforeTransport(c, w, r, a) == OK
    && !TransportOk(c, r, a) && SessionOf(w, r).Some? && TargetOf(w, r).None?
  }

  /** A covered path of the full length is the path itself. */
  lemma FullMatchIsEqual(managed: string, path: string)
    requires Matches(managed, path) && |managed| == |path|
    ensures managed == path
  {
    assert path[..|managed|] == path;
  }

  /** A path that is about to be managed is not managed yet. */
  lemma NewPathIsNew(ms: seq<Managed>, path: string, n: nat)
    requires MountOk(Some(n), path) && path != ""
    requires Find(ms, path).None?
    ensures Lookup(ms, path[..n]).None?
    ensures forall i :: 0 <= i < |ms| ==> ms[i].path != path[..n]
  {
    forall i | 0 <= i < |ms| ensures ms[i].path != path[..n] {
      if ms[i].path == path[..n] {
        assert Matches(ms[i].path, path);
        assert false;
      }
    }
    LookupMissing(ms, path[..n]);
  }

  lemma SetStateMoves(w: World, s: SessionId, i: nat, st: RtspState, s': SessionId, p: string)
    requires s in w.sessions && i < |w.sessions[s]| && Unique(w.sessions[s])
    ensures StateOf(w, s, w.sessions[s][i].path) == Some(w.sessions[s][i].state)
    ensures StateOf(SetState(w, s, i, st), s', p) ==
            if s' == s && p == w.sessions[s][i].path then Some(st) else StateOf(w, s', p)
  {
    LookupAt(w.sessions[s], i);
    LookupUpdate(w.sessions[s], i, st, p);
  }

  lemma ReleaseMoves(w: World, s: SessionId, i: nat, s': SessionId, p: string)
    requires s in w.sessions && i < |w.sessions[s]| && Unique(w.sessions[s])
    ensures StateOf(Release(w, s, i), s', p) ==
            if s' == s && p == w.sessions[s][i].path then None else StateOf(w, s', p)
  {
    LookupRemove(w.sessions[s], i, p);
  }

  /** An accepted TEARDOWN, PAUSE, PLAY or RECORD moves its own media, as the table says. */
  lemma AcceptedMoves(c: Config, w: World, r: Request, a: Answers, s: SessionId, p: string)
    requires AnswersOk(w, r, a) && Invariant(w)
    requires Answer(c, w, r, a) == OK && r.verb in {Play, Record, Pause, Teardown}
    ensures Subject(w, r, a).Some?
    ensures Allowed(StateOf(w, Subject(w, r, a).value.0, Subject(w, r, a).value.1), r.verb)
    ensures StateOf(After(c, w, r, a), s, p) ==
            if Subject(w, r, a) == Some((s, p)) then Next(StateOf(w, s, p), r.verb) else StateOf(w, s, p)
  {
    assert Aggregate(w, r) == OK;
    var s0, i := SessionOf(w, r).value, TargetOf(w, r).value;
    assert SessionOk(w.sessions[s0]);
    FullMatchIsEqual(Target(w, r).path, r.uri.path);
    SetStateMoves(w, s0, i, Playing, s, p);
    SetStateMoves(w, s0, i, Ready, s, p);
    ReleaseMoves(w, s0, i, s, p);
  }

  /** Nothing outside the sessions objects to the request. */
  predicate Willing(verb: Method, a: Answers) {
    && a.preSignal == OK
    && (verb.Pause? ==> a.pausable)
    && (verb.Play? || verb.Record? ==> a.pipeline && a.unsuspends)
    && (verb.Play? ==> a.plays && a.playMode == OK && a.rtpInfo && a.rates && a.playResponse == OK)
    && (verb.Record? ==> a.records)
  }

  /** If some media is managed under exactly this path, the longest match is that media. */
  lemma ExactIsBest(ms: seq<Managed>, path: string)
    requires path != "" && Unique(ms)
    ensures Lookup(ms, path).Some? <==> Find(ms, path).Some? && |ms[Find(ms, path).value].path| == |path|
    ensures Lookup(ms, path).Some? ==> Lookup(ms, path) == Some(ms[Find(ms, path).value].state)
  {
    LookupMissing(ms, path);
    var best := Find(ms, path);
    if i :| 0 <= i < |ms| && ms[i].path == path {
      assert path[..|path|] == path;
      assert Matches(ms[i].path, path);
    }
    if best.Some? && |ms[best.value].path| == |path| {
      FullMatchIsEqual(ms[best.value].path, path);
      LookupAt(ms, best.value);
    }
  }

  /**
   A TEARDOWN, PAUSE, PLAY or RECORD that nothing outside objects to is answered by the
   state of the media under its path alone: accepted exactly if the table allows it, 455
   if it does not; without such a media 460 or 404, by whether some shorter path covers it.
   */
  lemma StateDecides(c: Config, w: World, r: Request, a: Answers)
    requires AnswersOk(w, r, a) && Invariant(w)
    requires r.verb in {Play, Record, Pause, Teardown} && (r.verb.Record? ==> !r.version.Rtsp20?)
    requires Prelude(c, w, r, a) == OK && SessionOf(w, r).Some? && r.uri.Path? && Willing(r.verb, a)
    ensures var st := StateOf(w, SessionOf(w, r).value, r.uri.path);
            Answer(c, w, r, a) == if st.Some?
                                  then if Allowed(st, r.verb) then OK else METHOD_NOT_VALID_IN_THIS_STATE
                                  else if TargetOf(w, r).Some? then ONLY_AGGREGATE_OPERATION_ALLOWED
                                  else NOT_FOUND
  {
    var s := SessionOf(w, r).value;
    assert SessionOk(w.sessions[s]);
    ExactIsBest(w.sessions[s], r.uri.path);
  }

  /**
   GET_PARAMETER and SET_PARAMETER know no parameter: unless something outside objects, any
   body is answered 451, and without a body, as a keep-alive, only the GET_PARAMETER of
   RTSP 2.0 is refused. Neither changes anything.
   */
  lemma ParametersAreNotUnderstood(c: Config, w: World, r: Request, a: Answers)
    requires AnswersOk(w, r, a) && (r.verb.GetParameter? || r.verb.SetParameter?)
    requires Prelude(c, w, r, a) == OK && a.preSignal == OK && a.bodyReads
    ensures Answer(c, w, r, a) == PARAMETER_NOT_UNDERSTOOD <==> r.body
    ensures Answer(c, w, r, a) == BAD_REQUEST <==> !r.body && r.verb.GetParameter? && r.version.Rtsp20?
    ensures Answer(c, w, r, a) == OK <==> !r.body && !(r.verb.GetParameter? && r.version.Rtsp20?)
    ensures After(c, w, r, a) == w
  {
  }

  /** A SETUP that stops before its transport leaves the sessions alone. */
  lemma SetupStops(c: Config, w: World, r: Request, a: Answers)
    requires AnswersOk(w, r, a) && Prelude(c, w, r, a) == OK && r.verb.Setup?
    requires SetupBeforeTransport(c, w, r, a) != OK
    ensures After(c, w, r, a).sessions == w.sessions
  {
  }

  /** The sessions after a SETUP of a media that is managed already. */
  lemma SetupOfManaged(c: Config, w: World, r: Request, a: Answers)
    requires AnswersOk(w, r, a) && Prelude(c, w, r, a) == OK && r.verb.Setup?
    requires SetupBeforeTransport(c, w, r, a) == OK && TargetOf(w, r).Some?
    ensures After(c, w, r, a).sessions ==
            if TransportOk(c, r, a) && Target(w, r).state.Init?
            then SetState(w, SessionOf(w, r).value, TargetOf(w, r).value, Ready).sessions else w.sessions
  {
  }

  /** The sessions after a SETUP of a media that is not managed yet, and that media. */
  lemma SetupOfNew(c: Config, w: World, r: Request, a: Answers) returns (media: Media)
    requires AnswersOk(w, r, a) && Prelude(c, w, r, a) == OK && r.verb.Setup?
    requires SetupBeforeTransport(c, w, r, a) == OK && TargetOf(w, r).None?
    ensures Subject(w, r, a).Some?
    ensures a.mount.Some? && a.mount.value <= |r.uri.path|
    ensures if w.cached.Some? && w.cached.value.path == r.uri.path[..a.mount.value]
            then media == w.cached.value.media else a.constructed == Some(media)
    ensures var s := SessionFor(SessionOf(w, r), a);
            var before := if s in w.sessions then w.sessions[s] else [];
            var path := r.uri.path[..a.mount.value];
            After(c, w, r, a).sessions ==
            if TransportOk(c, r, a) then w.sessions[s := [Managed(path, media, Ready)] + before]
            else if s in w.sessions then w.sessions[s := [Managed(path, media, Init)] + before]
            else w.sessions
  {
    var s := SessionFor(SessionOf(w, r), a);
    var before := if s in w.sessions then w.sessions[s] else [];
    var found := AfterSetupFind(c, w, r, a);
    assert FindAnswer(c, w.cached, r.uri.path, true, a) == OK;
    var m := Managed(found.cached.value.path, found.cached.value.media, Init);
    assert m.path == r.uri.path[..a.mount.value];
    var joined := AfterSetupSession(found, SessionOf(w, r), r, a);
    assert joined.sessions[s] == before;
    var managed := Manage(joined, s, m);
    assert managed.sessions[s][0 := m.(state := Ready)] == [m.(state := Ready)] + before;
    media := m.media;
  }

  /** A SETUP that gets to its transport moves its media, or leaves a new one INIT. */
  lemma SetupMoves(c: Config, w: World, r: Request, a: Answers, s: SessionId, p: string)
    requires AnswersOk(w, r, a) && Invariant(w)
    requires Prelude(c, w, r, a) == OK && r.verb.Setup? && SetupBeforeTransport(c, w, r, a) == OK
    ensures Subject(w, r, a).Some?
    ensures Answer(c, w, r, a) == OK || RefusedLate(c, w, r, a) ==>
              StateOf(After(c, w, r, a), s, p) ==
              if Subject(w, r, a) != Some((s, p)) then StateOf(w, s, p)
              else if Answer(c, w, r, a) == OK then Next(StateOf(w, s, p), Setup)
              else Some(Init)
    ensures RefusedLate(c, w, r, a) ==> StateOf(w, Subject(w, r, a).value.0, Subject(w, r, a).value.1).None?
  {
    if TargetOf(w, r).Some? {
      SetupMovesManaged(c, w, r, a, s, p);
    } else {
      SetupMovesNew(c, w, r, a, s, p);
    }
  }

  lemma SetupMovesManaged(c: Config, w: World, r: Request, a: Answers, s: SessionId, p: string)
    requires AnswersOk(w, r, a) && Invariant(w) && TargetOf(w, r).Some?
    requires Prelude(c, w, r, a) == OK && r.verb.Setup? && SetupBeforeTransport(c, w, r, a) == OK
    ensures Subject(w, r, a).Some?
    ensures Answer(c, w, r, a) == OK ==>
              StateOf(After(c, w, r, a), s, p) ==
              if Subject(w, r, a) == Some((s, p)) then Next(StateOf(w, s, p), Setup) else StateOf(w, s, p)
  {
    SetupOfManaged(c, w, r, a);
    var s0, i := SessionOf(w, r).value, TargetOf(w, r).value;
    assert SessionOk(w.sessions[s0]);
    SetStateMoves(w, s0, i, Ready, s, p);
  }

  lemma SetupMovesNew(c: Config, w: World, r: Request, a: Answers, s: SessionId, p: string)
    requires AnswersOk(w, r, a) && Invariant(w) && TargetOf(w, r).None?
    requires Prelude(c, w, r, a) == OK && r.verb.Setup? && SetupBeforeTransport(c, w, r, a) == OK
    ensures Subject(w, r, a).Some?
    ensures var (s0, path) := Subject(w, r, a).value;
            && StateOf(w, s0, path) == None
            && (Answer(c, w, r, a) == OK || RefusedLate(c, w, r, a) ==>
                  StateOf(After(c, w, r, a), s, p) ==
                  if (s0, path) != (s, p) then StateOf(w, s, p)
                  else if Answer(c, w, r, a) == OK then Some(Ready)
                  else Some(Init))
  {
    var media := SetupOfNew(c, w, r, a);
    var s0 := SessionFor(SessionOf(w, r), a);
    var before := if s0 in w.sessions then w.sessions[s0] else [];
    var path := r.uri.path[..a.mount.value];
    NewPathIsNew(before, r.uri.path, a.mount.value);
    forall m: Managed | m.path == path
      ensures Lookup([m] + before, p) == if p == path then Some(m.state) else Lookup(before, p)
    {
      assert ([m] + before)[1..] == before;
    }
  }

  /** An accepted request moves the media it is about as the table says, and no other. */
  lemma AcceptedFollowsTable(c: Config, w: World, r: Request, a: Answers, s: SessionId, p: string)
    requires AnswersOk(w, r, a) && Invariant(w) && Answer(c, w, r, a) == OK
    ensures StateOf(After(c, w, r, a), s, p) ==
            if Subject(w, r, a) == Some((s, p)) then Next(StateOf(w, s, p), r.verb) else StateOf(w, s, p)
    ensures Subject(w, r, a) == Some((s, p)) ==> Allowed(StateOf(w, s, p), r.verb)
  {
    if r.verb in {Play, Record, Pause, Teardown} {
      AcceptedMoves(c, w, r, a, s, p);
    } else if r.verb.Setup? {
      SetupMoves(c, w, r, a, s, p);
    }
  }

  /** A refused request leaves every session as it was, unless it is a SETUP refused late. */
  lemma RefusedChangesNothing(c: Config, w: World, r: Request, a: Answers)
    requires AnswersOk(w, r, a) && Invariant(w) && Answer(c, w, r, a) != OK
    ensures After(c, w, r, a).sessions == w.sessions <==> !RefusedLate(c, w, r, a)
  {
    if Prelude(c, w, r, a) == OK && r.verb.Setup? {
      if SetupBeforeTransport(c, w, r, a) != OK {
        SetupStops(c, w, r, a);
      } else if TargetOf(w, r).Some? {
        SetupOfManaged(c, w, r, a);
      } else {
        var media := SetupOfNew(c, w, r, a);
        if RefusedLate(c, w, r, a) {
          var s := SessionOf(w, r).value;
          assert |After(c, w, r, a).sessions[s]| == |w.sessions[s]| + 1;
        }
      }
    }
  }

  // ---------------------------------------------------------------------- every run

  type ClientId = nat

  /** What a client has of its own. */
  datatype Peer = Peer(config: Config, pipelined: map<string, SessionId>, cached: Option<Cached>)

  /** The session pool, and the clients that share it. */
  datatype Server = Server(sessions: map<SessionId, seq<Managed>>, peers: map<ClientId, Peer>)

  const EMPTY_SERVER := Server(map[], map[])

  /** What a client sees during a request. */
  function Seen(v: Server, client: ClientId): World
    requires client in v.peers
  {
    World(v.sessions, v.peers[client].pipelined, v.peers[client].cached)
  }

  /**
   A client that connects; a request of a client; the session pool that drops a session of
   its own accord; a client that closes, and what it takes along. That depends on the
   transports and on what each media does on a disconnect: any set of media is allowed.
   */
  datatype Event =
    | Connect(client: ClientId, config: Config)
    | Handle(client: ClientId, request: Request, answers: Answers)
    | Expire(session: SessionId)
    | Disconnect(client: ClientId, taken: set<(SessionId, string)>)

  predicate EventOk(v: Server, e: Event) {
    match e
    case Connect(client, _) => client !in v.peers
    case Handle(client, r, a) => client in v.peers && AnswersOk(Seen(v, client), r, a)
    case Expire(_) => true
    case Disconnect(client, _) => client in v.peers
  }

  /** What a session keeps when a client takes media along; the session stays, even empty. */
  function Kept(ms: seq<Managed>, s: SessionId, taken: set<(SessionId, string)>): seq<Managed> {
    if ms == [] then []
    else if (s, ms[0].path) in taken then Kept(ms[1..], s, taken)
    else [ms[0]] + Kept(ms[1..], s, taken)
  }

  function Served(v: Server, client: ClientId, r: Request, a: Answers): Server
    requires client in v.peers && AnswersOk(Seen(v, client), r, a)
  {
    var w := After(v.peers[client].config, Seen(v, client), r, a);
    Server(w.sessions, v.peers[client := Peer(v.peers[client].config, w.pipelined, w.cached)])
  }

  function Step(v: Server, e: Event): Server
    requires EventOk(v, e)
  {
    match e
    case Connect(client, config) => v.(peers := v.peers[client := Peer(config, map[], None)])
    case Handle(client, r, a) => Served(v, client, r, a)
    case Expire(s) => v.(sessions := v.sessions - {s})
    case Disconnect(client, taken) =>
      Server(map s | s in v.sessions :: Kept(v.sessions[s], s, taken), v.peers - {client})
  }

  predicate RunOk(v: Server, es: seq<Event>)
    decreases |es|
  {
    es == [] || (EventOk(v, es[0]) && RunOk(Step(v, es[0]), es[1..]))
  }

  function Run(v: Server, es: seq<Event>): Server
    requires RunOk(v, es)
    decreases |es|
  {
    if es == [] then v else Run(Step(v, es[0]), es[1..])
  }

  lemma SetStateOk(ms: seq<Managed>, i: nat, st: RtspState)
    requires SessionOk(ms) && i < |ms| && !st.Recording?
    ensures SessionOk(ms[i := ms[i].(state := st)])
  {
    var next := ms[i := ms[i].(state := st)];
    assert forall j :: 0 <= j < |ms| ==> next[j].path == ms[j].path;
  }

  lemma RemoveOk(ms: seq<Managed>, i: nat)
    requires SessionOk(ms) && i < |ms|
    ensures SessionOk(ms[..i] + ms[i + 1..])
  {
    var next := ms[..i] + ms[i + 1..];
    assert forall j :: 0 <= j < |next| ==> next[j] == ms[if j < i then j else j + 1];
  }

  lemma MovedKeepsInvariant(w: World, verb: Method, s: SessionId, i: nat)
    requires Invariant(w) && s in w.sessions && i < |w.sessions[s]|
    ensures Invariant(Moved(w, verb, s, i))
  {
    assert SessionOk(w.sessions[s]);
    SetStateOk(w.sessions[s], i, Playing);
    SetStateOk(w.sessions[s], i, Ready);
    RemoveOk(w.sessions[s], i);
  }

  /** What a client takes along is gone, and nothing else is. */
  lemma {:induction false} KeptLookup(ms: seq<Managed>, s: SessionId, taken: set<(SessionId, string)>, p: string)
    ensures Lookup(Kept(ms, s, taken), p) == if (s, p) in taken then None else Lookup(ms, p)
  {
    if ms != [] {
      KeptLookup(ms[1..], s, taken, p);
      assert ([ms[0]] + Kept(ms[1..], s, taken))[1..] == Kept(ms[1..], s, taken);
    }
  }

  lemma {:induction false} KeptOk(ms: seq<Managed>, s: SessionId, taken: set<(SessionId, string)>)
    requires SessionOk(ms)
    ensures SessionOk(Kept(ms, s, taken))
    ensures forall m :: m in Kept(ms, s, taken) ==> m in ms
  {
    if ms != [] {
      var rest := Kept(ms[1..], s, taken);
      KeptOk(ms[1..], s, taken);
      forall i | 0 <= i < |rest| ensures rest[i].path != ms[0].path {
        assert rest[i] in ms[1..];
      }
    }
  }

  /** A session loses all its media if and only if the client takes all of them along. */
  lemma {:induction false} KeptNothing(ms: seq<Managed>, s: SessionId, taken: set<(SessionId, string)>)
    ensures Kept(ms, s, taken) == [] <==> forall i :: 0 <= i < |ms| ==> (s, ms[i].path) in taken
  {
    if ms != [] {
      KeptNothing(ms[1..], s, taken);
      assert forall i :: 0 < i < |ms| ==> ms[i] == ms[1..][i - 1];
    }
  }

  lemma AfterKeepsInvariant(c: Config, w: World, r: Request, a: Answers)
    requires Invariant(w) && AnswersOk(w, r, a)
    ensures Invariant(After(c, w, r, a))
  {
    if Answer(c, w, r, a) == OK && r.verb in {Play, Record, Pause, Teardown} {
      MovedKeepsInvariant(w, r.verb, SessionOf(w, r).value, TargetOf(w, r).value);
    } else if Prelude(c, w, r, a) == OK && r.verb.Setup? {
      SetupKeepsInvariant(c, w, r, a);
    } else {
      assert After(c, w, r, a).sessions == w.sessions;
    }
  }

  /** Whatever happens, paths stay apart in each session, and nothing is ever recording. */
  lemma StepKeepsInvariant(v: Server, e: Event)
    requires AllOk(v.sessions) && EventOk(v, e)
    ensures AllOk(Step(v, e).sessions)
  {
    match e
    case Connect(_, _) =>
    case Handle(client, r, a) =>
      AfterKeepsInvariant(v.peers[client].config, Seen(v, client), r, a);
    case Expire(_) =>
    case Disconnect(_, taken) =>
      forall s | s in v.sessions ensures SessionOk(Kept(v.sessions[s], s, taken)) {
        KeptOk(v.sessions[s], s, taken);
      }
  }

  lemma SetupKeepsInvariant(c: Config, w: World, r: Request, a: Answers)
    requires Invariant(w) && AnswersOk(w, r, a) && Prelude(c, w, r, a) == OK && r.verb.Setup?
    ensures Invariant(After(c, w, r, a))
  {
    if SetupBeforeTransport(c, w, r, a) != OK {
      SetupStops(c, w, r, a);
    } else if TargetOf(w, r).Some? {
      SetupOfManaged(c, w, r, a);
      var s, i := SessionOf(w, r).value, TargetOf(w, r).value;
      assert SessionOk(w.sessions[s]);
      SetStateOk(w.sessions[s], i, Ready);
    } else {
      var media := SetupOfNew(c, w, r, a);
      var s := SessionFor(SessionOf(w, r), a);
      var before := if s in w.sessions then w.sessions[s] else [];
      var path := r.uri.path[..a.mount.value];
      assert SessionOk(before);
      NewPathIsNew(before, r.uri.path, a.mount.value);
      NewMediaOk(Managed(path, media, Ready), before);
      NewMediaOk(Managed(path, media, Init), before);
    }
  }

  lemma NewMediaOk(m: Managed, before: seq<Managed>)
    requires SessionOk(before) && !m.state.Recording?
    requires forall i :: 0 <= i < |before| ==> before[i].path != m.path
    ensures SessionOk([m] + before)
  {
  }

  lemma {:induction false} RunKeepsInvariant(v: Server, es: seq<Event>)
    requires AllOk(v.sessions) && RunOk(v, es)
    ensures AllOk(Run(v, es).sessions)
    decreases |es|
  {
    if es != [] {
      StepKeepsInvariant(v, es[0]);
      RunKeepsInvariant(Step(v, es[0]), es[1..]);
    }
  }

  /** The session is there, and manages nothing. */
  predicate IsEmpty(sessions: map<SessionId, seq<Managed>>, s: SessionId) {
    s in sessions && sessions[s] == []
  }

  /** A session is left without media if and only if a client that closes takes the last
      ones along: no request does that, whatever it is answered. */
  lemma OnlyClosingEmpties(v: Server, e: Event, s: SessionId)
    requires AllOk(v.sessions) && EventOk(v, e) && !IsEmpty(v.sessions, s)
    ensures IsEmpty(Step(v, e).sessions, s) <==>
            && e.Disconnect? && s in v.sessions
            && forall i :: 0 <= i < |v.sessions[s]| ==> (s, v.sessions[s][i].path) in e.taken
  {
    match e
    case Connect(_, _) =>
    case Handle(client, r, a) =>
      RequestEmptiesNothing(v.peers[client].config, Seen(v, client), r, a, s);
    case Expire(_) =>
    case Disconnect(_, taken) =>
      if s in v.sessions {
        KeptNothing(v.sessions[s], s, taken);
      }
  }

  lemma RequestEmptiesNothing(c: Config, w: World, r: Request, a: Answers, s: SessionId)
    requires AnswersOk(w, r, a) && !IsEmpty(w.sessions, s)
    ensures !IsEmpty(After(c, w, r, a).sessions, s)
  {
    if Prelude(c, w, r, a) == OK && r.verb.Setup? {
      if SetupBeforeTransport(c, w, r, a) != OK {
        SetupStops(c, w, r, a);
      } else if TargetOf(w, r).Some? {
        SetupOfManaged(c, w, r, a);
      } else {
        var media := SetupOfNew(c, w, r, a);
      }
    }
  }

  /** What one event means to the media under `p` in session `s`. */
  datatype Move = Accepted(verb: Method) | LeftIdle | Gone

  function MoveOf(v: Server, e: Event, s: SessionId, p: string): Option<Move>
    requires EventOk(v, e)
  {
    match e
    case Connect(_, _) => None
    case Expire(s') => if s' == s then Some(Gone) else None
    case Disconnect(_, taken) => if (s, p) in taken then Some(Gone) else None
    case Handle(client, r, a) =>
      var c, w := v.peers[client].config, Seen(v, client);
      if Subject(w, r, a) != Some((s, p)) then None
      else if Answer(c, w, r, a) == OK then Some(Accepted(r.verb))
      else if RefusedLate(c, w, r, a) then Some(LeftIdle)
      else None
  }

  function Track(st: Option<RtspState>, m: Move): Option<RtspState> {
    match m
    case Accepted(verb) => Next(st, verb)
    case LeftIdle => Some(Init)
    case Gone => None
  }

  function Fold(st: Option<RtspState>, ms: seq<Move>): Option<RtspState> {
    if ms == [] then st else Track(Fold(st, ms[..|ms| - 1]), ms[|ms| - 1])
  }

  /** The moves of one media over a run, whichever client makes them. */
  function History(v: Server, es: seq<Event>, s: SessionId, p: string): seq<Move>
    requires RunOk(v, es)
    decreases |es|
  {
    if es == [] then []
    else
      var m := MoveOf(v, es[0], s, p);
      (if m.Some? then [m.value] else []) + History(Step(v, es[0]), es[1..], s, p)
  }

  lemma {:induction false} FoldFirst(st: Option<RtspState>, m: Move, ms: seq<Move>)
    ensures Fold(st, [m] + ms) == Fold(Track(st, m), ms)
  {
    var all := [m] + ms;
    if ms == [] {
      assert all[..0] == [];
      assert all == [m];
    } else {
      FoldFirst(st, m, ms[..|ms| - 1]);
      assert all[..|all| - 1] == [m] + ms[..|ms| - 1];
    }
  }

  lemma StepFollowsTable(v: Server, e: Event, s: SessionId, p: string)
    requires AllOk(v.sessions) && EventOk(v, e)
    ensures var st, m := StateIn(v.sessions, s, p), MoveOf(v, e, s, p);
            StateIn(Step(v, e).sessions, s, p) == if m.Some? then Track(st, m.value) else st
  {
    match e
    case Connect(_, _) =>
    case Handle(client, r, a) =>
      RequestFollowsTable(v, client, r, a, s, p);
    case Expire(_) =>
    case Disconnect(_, taken) =>
      if s in v.sessions {
        KeptLookup(v.sessions[s], s, taken, p);
      }
  }

  lemma RequestFollowsTable(v: Server, client: ClientId, r: Request, a: Answers, s: SessionId, p: string)
    requires AllOk(v.sessions) && EventOk(v, Handle(client, r, a))
    ensures var st, m := StateIn(v.sessions, s, p), MoveOf(v, Handle(client, r, a), s, p);
            StateIn(Step(v, Handle(client, r, a)).sessions, s, p) == if m.Some? then Track(st, m.value) else st
  {
    var c, w := v.peers[client].config, Seen(v, client);
    if Answer(c, w, r, a) == OK {
      AcceptedFollowsTable(c, w, r, a, s, p);
    } else if RefusedLate(c, w, r, a) {
      SetupMoves(c, w, r, a, s, p);
    } else {
      RefusedChangesNothing(c, w, r, a);
    }
  }

  /** Over every run each media is in the state its own moves lead to in the table. */
  lemma {:induction false} RunFollowsTable(v: Server, es: seq<Event>, s: SessionId, p: string)
    requires AllOk(v.sessions) && RunOk(v, es)
    ensures StateIn(Run(v, es).sessions, s, p) == Fold(StateIn(v.sessions, s, p), History(v, es, s, p))
    decreases |es|
  {
    if es != [] {
      var next := Step(v, es[0]);
      StepKeepsInvariant(v, es[0]);
      StepFollowsTable(v, es[0], s, p);
      RunFollowsTable(next, es[1..], s, p);
      var m := MoveOf(v, es[0], s, p);
      var rest := History(next, es[1..], s, p);
      if m.Some? {
        FoldFirst(StateIn(v.sessions, s, p), m.value, rest);
      } else {
        assert [] + rest == rest;
      }
    }
  }

  predicate Starts(m: Move) { m.Accepted? && (m.verb.Play? || m.verb.Record?) }

  predicate Stops(m: Move) { !m.Accepted? || m.verb.Pause? || m.verb.Teardown? }

  /** A play or record that was accepted and that nothing has stopped since. */
  ghost predicate Running(ms: seq<Move>) {
    exists k :: 0 <= k < |ms| && Starts(ms[k]) && forall j :: k < j < |ms| ==> !Stops(ms[j])
  }

  /** From a state that is not playing, playing means started and not stopped since. */
  lemma {:induction false} PlayingWasStarted(st: Option<RtspState>, ms: seq<Move>)
    requires st != Some(Playing)
    ensures Fold(st, ms) == Some(Playing) <==> Running(ms)
  {
    if ms != [] {
      var n := |ms| - 1;
      var init := ms[..n];
      PlayingWasStarted(st, init);
      if Starts(ms[n]) {
        var k := n;
        assert Starts(ms[k]);
      } else if Fold(st, init) == Some(Playing) && !Stops(ms[n]) {
        var k :| 0 <= k < |init| && Starts(init[k]) && forall j :: k < j < |init| ==> !Stops(init[j]);
        assert Starts(ms[k]) && forall j :: k < j < |ms| ==> !Stops(ms[j]);
      } else {
        forall k | 0 <= k < |ms| && Starts(ms[k])
          ensures exists j :: k < j < |ms| && Stops(ms[j])
        {
          if !Stops(ms[n]) {
            assert init[k] == ms[k];
            var j :| k < j < |init| && Stops(init[j]);
            assert Stops(ms[j]);
          }
        }
      }
    }
  }

  /** Without a client that closes, no session is ever left without media. */
  lemma {:induction false} SessionsKeepMedia(v: Server, es: seq<Event>, s: SessionId)
    requires AllOk(v.sessions) && RunOk(v, es) && !IsEmpty(v.sessions, s)
    requires forall i :: 0 <= i < |es| ==> !es[i].Disconnect?
    ensures !IsEmpty(Run(v, es).sessions, s)
    decreases |es|
  {
    if es != [] {
      StepKeepsInvariant(v, es[0]);
      OnlyClosingEmpties(v, es[0], s);
      SessionsKeepMedia(Step(v, es[0]), es[1..], s);
    }
  }

  /**
   Over every run from the start, of any number of clients: each media is in the state its
   own moves lead to, never recording, and playing exactly while a PLAY or RECORD is running;
   and while no client closes, no session is left without media.
   */
  lemma RunIsSafe(es: seq<Event>, s: SessionId, p: string)
    requires RunOk(EMPTY_SERVER, es)
    ensures var sessions, moves := Run(EMPTY_SERVER, es).sessions, History(EMPTY_SERVER, es, s, p);
            && StateIn(sessions, s, p) == Fold(None, moves)
            && StateIn(sessions, s, p) != Some(Recording)
            && (StateIn(sessions, s, p) == Some(Playing) <==> Running(moves))
            && (IsEmpty(sessions, s) ==> exists i :: 0 <= i < |es| && es[i].Disconnect?)
  {
    var sessions, moves := Run(EMPTY_SERVER, es).sessions, History(EMPTY_SERVER, es, s, p);
    RunKeepsInvariant(EMPTY_SERVER, es);
    RunFollowsTable(EMPTY_SERVER, es, s, p);
    PlayingWasStarted(None, moves);
    if StateIn(sessions, s, p).Some? {
      var ms := sessions[s];
      assert SessionOk(ms);
      LookupMissing(ms, p);
      var i :| 0 <= i < |ms| && ms[i].path == p;
      LookupAt(ms, i);
    }
    if forall i :: 0 <= i < |es| ==> !es[i].Disconnect? {
      SessionsKeepMedia(EMPTY_SERVER, es, s);
    }
  }

  // ----------------------------------------------------------------- concrete runs

  /** Nothing outside objects; the media at `path` is mounted there and is made as 1. */
  function Agreeable(path: string): Answers {
    Answers(true, true, OK, true, true, Some(|path|), OK, OK, Some(1), true, true, true, true, true, true,
            Some(7), true, true, true, true, true, true, true, true, true, true, true, true, OK, true,
            true, OK, true, true, true, true)
  }

  function SetupOf(path: string, session: Option<SessionId>): Request {
    Request(Setup, Rtsp10, Path(path), None, session, true, true, false, false)
  }

  /** A client connects and sets up its first media. */
  function FirstSetup(c: Config, path: string): seq<Event> {
    [Connect(1, c), Handle(1, SetupOf(path, None), Agreeable(path))]
  }

  lemma Chain(v: Server, e: Event, es: seq<Event>)
    requires EventOk(v, e) && RunOk(Step(v, e), es)
    ensures RunOk(v, [e] + es) && Run(v, [e] + es) == Run(Step(v, e), es)
  {
    assert ([e] + es)[1..] == es;
  }

  /** After that, session 7 manages it. */
  lemma AfterFirstSetup(c: Config, path: string)
    requires c.pool && c.mountPoints && path != ""
    ensures RunOk(EMPTY_SERVER, FirstSetup(c, path))
    ensures Run(EMPTY_SERVER, FirstSetup(c, path))
         == Server(map[7 := [Managed(path, 1, Ready)]], map[1 := Peer(c, map[], None)])
  {
    var r, a := SetupOf(path, None), Agreeable(path);
    var v := Step(EMPTY_SERVER, Connect(1, c));
    SetupOnEmpty(c, path);
    assert Seen(v, 1) == EMPTY_WORLD;
    var end := Step(v, Handle(1, r, a));
    assert end.peers == map[1 := Peer(c, map[], None)];
    Chain(v, Handle(1, r, a), []);
    Chain(EMPTY_SERVER, Connect(1, c), [Handle(1, r, a)]);
    assert [Handle(1, r, a)] + [] == [Handle(1, r, a)];
    assert [Connect(1, c)] + [Handle(1, r, a)] == FirstSetup(c, path);
  }

  lemma SetupOnEmpty(c: Config, path: string)
    requires c.pool && c.mountPoints && path != ""
    ensures AnswersOk(EMPTY_WORLD, SetupOf(path, None), Agreeable(path))
    ensures After(c, EMPTY_WORLD, SetupOf(path, None), Agreeable(path))
         == World(map[7 := [Managed(path, 1, Ready)]], map[], None)
  {
    var w := After(c, EMPTY_WORLD, SetupOf(path, None), Agreeable(path));
    assert path[..|path|] == path;
    assert w.sessions[7] == [Managed(path, 1, Ready)];
    assert w.sessions == map[7 := [Managed(path, 1, Ready)]];
  }

  /**
   After an authenticated SETUP, the same SETUP without credentials is answered twice, 401
   and then 200, when SETUP need not be authenticated.
   */
  lemma TwoReplies()
    ensures var c := Config(Some(Auth({}, false)), true, true);
            && RunOk(EMPTY_SERVER, FirstSetup(c, "/live"))
            && 1 in Run(EMPTY_SERVER, FirstSetup(c, "/live")).peers
            && var w := Seen(Run(EMPTY_SERVER, FirstSetup(c, "/live")), 1);
            var r, a := SetupOf("/live", Some(7)), Agreeable("/live").(credentials := false, newSession := None);
            AnswersOk(w, r, a) && Replies(c, w, r, a) == [UNAUTHORIZED, OK]
  {
    var c := Config(Some(Auth({}, false)), true, true);
    AfterFirstSetup(c, "/live");
    ExactIsBest([Managed("/live", 1, Ready)], "/live");
  }

  /**
   After a SETUP of one path, a SETUP of another path in the same session is refused 461
   for its transport, and leaves an idle media behind.
   */
  lemma LateRefusalLeavesMedia()
    ensures var c := Config(None, true, true);
            && RunOk(EMPTY_SERVER, FirstSetup(c, "/a"))
            && 1 in Run(EMPTY_SERVER, FirstSetup(c, "/a")).peers
            && var w := Seen(Run(EMPTY_SERVER, FirstSetup(c, "/a")), 1);
            var r, a := SetupOf("/b", Some(7)), Agreeable("/b").(newSession := None, transportConfigured := false);
            && AnswersOk(w, r, a) && Replies(c, w, r, a) == [UNSUPPORTED_TRANSPORT]
            && StateOf(w, 7, "/b") == None && StateOf(After(c, w, r, a), 7, "/b") == Some(Init)
  {
    var c := Config(None, true, true);
    AfterFirstSetup(c, "/a");
    var ms := [Managed("/a", 1, Ready)];
    var w := World(map[7 := ms], map[], None);
    var r, a := SetupOf("/b", Some(7)), Agreeable("/b").(newSession := None, transportConfigured := false);
    assert "/b"[..2] == "/b" != "/a";
    assert !Matches("/a", "/b");
    assert Best(ms, "/b", 1).None?;
    SetupMoves(c, w, r, a, 7, "/b");
    assert ms[1..] == [];
  }

  /** After a SETUP, an accepted RECORD leaves the media PLAYING; here it is that of another
      client, which names the session. */
  lemma RecordPlays()
    ensures var c := Config(None, true, true);
            && RunOk(EMPTY_SERVER, FirstSetup(c, "/live"))
            && var v := Run(EMPTY_SERVER, FirstSetup(c, "/live"));
            var r, a := SetupOf("/live", Some(7)).(verb := Record), Agreeable("/live").(newSession := None);
            var w := World(v.sessions, map[], None);
            && EventOk(v, Connect(2, c)) && Seen(Step(v, Connect(2, c)), 2) == w
            && AnswersOk(w, r, a) && Replies(c, w, r, a) == [OK]
            && StateOf(After(c, w, r, a), 7, "/live") == Some(Playing)
  {
    var c := Config(None, true, true);
    AfterFirstSetup(c, "/live");
    var w := World(map[7 := [Managed("/live", 1, Ready)]], map[], None);
    var r, a := SetupOf("/live", Some(7)).(verb := Record), Agreeable("/live").(newSession := None);
    ExactIsBest(w.sessions[7], "/live");
    StateDecides(c, w, r, a);
    AcceptedFollowsTable(c, w, r, a, 7, "/live");
  }

  /** After a SETUP, the client closes and takes its media along: the session stays behind,
      without media. */
  lemma ClosingLeavesEmptySession()
    ensures var c := Config(None, true, true);
            && RunOk(EMPTY_SERVER, FirstSetup(c, "/live"))
            && var v, e := Run(EMPTY_SERVER, FirstSetup(c, "/live")), Disconnect(1, {(7, "/live")});
            EventOk(v, e) && Step(v, e) == Server(map[7 := []], map[])
  {
    var c := Config(None, true, true);
    AfterFirstSetup(c, "/live");
    var v, e := Run(EMPTY_SERVER, FirstSetup(c, "/live")), Disconnect(1, {(7, "/live")});
    KeptNothing(v.sessions[7], 7, e.taken);
    assert Step(v, e).sessions == map[7 := []];
    assert Step(v, e).peers == map[];
  }
}
