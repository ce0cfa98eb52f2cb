/**
 The request dispatcher of the server, as a value: what each request is answered, and what
 it does to the sessions and the media they manage. Whatever lies outside (pipelines, SDP,
 the network, the application's signals) enters as the answers it gives.
 */
module DispatchModel {
  import opened Basics

  type Status = nat
  const OK: Status := 200
  const BAD_REQUEST: Status := 400
  const UNAUTHORIZED: Status := 401
  const NOT_FOUND: Status := 404
  const METHOD_NOT_ALLOWED: Status := 405
  const UNSUPPORTED_MEDIA_TYPE: Status := 415
  const PARAMETER_NOT_UNDERSTOOD: Status := 451
  const SESSION_NOT_FOUND: Status := 454
  const METHOD_NOT_VALID_IN_THIS_STATE: Status := 455
  const ONLY_AGGREGATE_OPERATION_ALLOWED: Status := 460
  const UNSUPPORTED_TRANSPORT: Status := 461
  const KEY_MANAGEMENT_FAILURE: Status := 463
  const INTERNAL_SERVER_ERROR: Status := 500
  const NOT_IMPLEMENTED: Status := 501
  const SERVICE_UNAVAILABLE: Status := 503
  const VERSION_NOT_SUPPORTED: Status := 505
  const OPTION_NOT_SUPPORTED: Status := 551

  type SessionId = nat
  type Media = nat

  datatype Method = Options | Describe | Setup | Play | Pause | Teardown
                  | SetParameter | GetParameter | Announce | Record | Redirect | Invalid
  datatype Version = Rtsp10 | Rtsp20 | OtherVersion
  datatype RtspState = Init | Ready | Playing | Recording

  /** A media that a session manages under a path. */
  datatype Managed = Managed(path: string, media: Media, state: RtspState)

  datatype Uri = Star | Path(path: string) | Unparsable

  /** `multicast` is the lower transport that the request asks for, `destination` whether it
      names an address for it. */
  datatype Request = Request(verb: Method, version: Version, uri: Uri,
                             pipelined: Option<string>, session: Option<SessionId>,
                             transport: bool, multicast: bool, destination: bool, body: bool)

  datatype Auth = Auth(methods: set<Method>, defaultToken: bool)
  datatype Config = Config(auth: Option<Auth>, pool: bool, mountPoints: bool)

  datatype Cached = Cached(path: string, media: Media)

  /** Sessions list the newest managed media first. */
  datatype World = World(sessions: map<SessionId, seq<Managed>>,
                         pipelined: map<string, SessionId>, cached: Option<Cached>)

  const EMPTY_WORLD := World(map[], map[], None)

  /**
   What the outside answers during one request. A flag is true when that step succeeds;
   a status is OK when that step has no objection. `mount` is the length of the longest
   mount point that matches the path.
   */
  datatype Answers = Answers(
    credentials: bool, requirements: bool, preSignal: Status, bodyReads: bool,
    makesPath: bool, mount: Option<nat>, access: Status, construct: Status,
    constructed: Option<Media>, plays: bool, records: bool, thread: bool, prepares: bool,
    oneStream: bool, control: bool, newSession: Option<SessionId>, blocksize: bool,
    transportKnown: bool, modeFits: bool, keyManagement: bool, rangeUnit: bool,
    manages: bool, clientSettings: bool, ttl: bool, transportConfigured: bool,
    pausable: bool, pipeline: bool, unsuspends: bool, playMode: Status, rtpInfo: bool,
    rates: bool, playResponse: Status,
    sdp: bool, contentType: bool, sdpParses: bool, sdpHandled: bool)

  // ----------------------------------------------------------------- finding things

  /** Whether a managed path covers `path`: a prefix that ends at a slash or at the end. */
  predicate Matches(managed: string, path: string) {
    && |managed| <= |path|
    && (|| (|managed| == 1 && managed[0] == '/' && path[0] == '/')
        || ((|path| > |managed| ==> path[|managed|] == '/') && path[..|managed|] == managed))
  }

  /** The longest of the first `n` managed media that covers `path`; the first of equals. */
  function Best(ms: seq<Managed>, path: string, n: nat): (best: Option<nat>)
    requires n <= |ms|
    ensures best.Some? ==> best.value < n
    ensures best.Some? ==> Matches(ms[best.value].path, path) && 0 < |ms[best.value].path|
    ensures best.None? ==> forall i :: 0 <= i < n && Matches(ms[i].path, path) ==> ms[i].path == ""
    ensures best.Some? ==> forall i :: 0 <= i < n && Matches(ms[i].path, path) ==>
                                         |ms[i].path| <= |ms[best.value].path|
  {
    if n == 0 then None
    else
      var prev := Best(ms, path, n - 1);
      var length := if prev.Some? then |ms[prev.value].path| else 0;
      if Matches(ms[n - 1].path, path) && length < |ms[n - 1].path| then Some(n - 1) else prev
  }

  function Find(ms: seq<Managed>, path: string): (best: Option<nat>)
    ensures best.Some? ==> best.value < |ms|
  {
    Best(ms, path, |ms|)
  }

  /** A match of the mount points: at least a slash, ending at a slash or at the end. */
  predicate MountOk(mount: Option<nat>, path: string) {
    mount.Some? ==>
      && 0 < mount.value <= |path|
      && (|| mount.value == |path| || path[mount.value] == '/'
          || (mount.value == 1 && path[0] == '/'))
  }

  /** Session ids are fresh, and the path of a URL is never empty. */
  predicate AnswersOk(w: World, r: Request, a: Answers) {
    && (a.newSession.Some? ==> a.newSession.value !in w.sessions)
    && (r.uri.Path? ==> r.uri.path != "" && MountOk(a.mount, r.uri.path))
  }

  function Named(w: World, r: Request): Option<SessionId> {
    if r.pipelined.Some? && r.pipelined.value in w.pipelined
    then Some(w.pipelined[r.pipelined.value]) else r.session
  }

  /** The session a request that passes the prelude belongs to. */
  function SessionOf(w: World, r: Request): (s: Option<SessionId>)
    ensures s.Some? ==> s.value in w.sessions
  {
    var n := Named(w, r);
    if n.Some? && n.value in w.sessions then n else None
  }

  /** The managed media a request is about. */
  function TargetOf(w: World, r: Request): (i: Option<nat>)
    ensures i.Some? ==> SessionOf(w, r).Some? && i.value < |w.sessions[SessionOf(w, r).value]|
    ensures i.Some? ==> r.uri.Path?
  {
    var s := SessionOf(w, r);
    if s.Some? && r.uri.Path? then Find(w.sessions[s.value], r.uri.path) else None
  }

  function Target(w: World, r: Request): Managed
    requires TargetOf(w, r).Some?
  {
    w.sessions[SessionOf(w, r).value][TargetOf(w, r).value]
  }

  predicate Authenticated(c: Config, a: Answers) {
    c.auth.None? || c.auth.value.defaultToken || a.credentials
  }

  // ----------------------------------------------------- what each request is answered

  function Prelude(c: Config, w: World, r: Request, a: Answers): Status {
    if r.version.OtherVersion? then VERSION_NOT_SUPPORTED
    else if r.uri.Unparsable? then BAD_REQUEST
    else if Named(w, r).Some? && (!c.pool || SessionOf(w, r).None?) then SESSION_NOT_FOUND
    else if c.auth.Some? && r.verb in c.auth.value.methods && !Authenticated(c, a) then UNAUTHORIZED
    else if !a.requirements then OPTION_NOT_SUPPORTED
    else OK
  }

  /** Finding the factory of `path`; `prefix` when a mount point above it will do. */
  function FactoryAnswer(c: Config, path: string, prefix: bool, a: Answers): (st: Status)
    ensures st == OK ==> a.mount.Some?
  {
    if !c.mountPoints || a.mount.None? || (!prefix && a.mount.value != |path|) then NOT_FOUND
    else if !Authenticated(c, a) then UNAUTHORIZED
    else if c.auth.Some? && a.access != OK then a.access
    else if c.auth.Some? && a.construct != OK then a.construct
    else OK
  }

  /** Making and preparing a media. */
  function MakeAnswer(a: Answers): Status {
    if a.constructed.None? then BAD_REQUEST
    else if !a.records && (!a.thread || !a.prepares) then SERVICE_UNAVAILABLE
    else OK
  }

  predicate IsCached(cached: Option<Cached>, path: string, n: nat) {
    n <= |path| && cached.Some? && cached.value.path == path[..n]
  }

  function FindAnswer(c: Config, cached: Option<Cached>, path: string, prefix: bool, a: Answers): Status {
    if FactoryAnswer(c, path, prefix, a) != OK then FactoryAnswer(c, path, prefix, a)
    else if IsCached(cached, path, a.mount.value) then OK
    else MakeAnswer(a)
  }

  /** The media cache after a search: dropped before another media is made. */
  function CacheAfter(c: Config, cached: Option<Cached>, path: string, prefix: bool, a: Answers): (next: Option<Cached>)
    requires MountOk(a.mount, path)
    ensures FindAnswer(c, cached, path, prefix, a) == OK ==> next.Some? && next.value.path == path[..a.mount.value]
  {
    if FactoryAnswer(c, path, prefix, a) != OK || IsCached(cached, path, a.mount.value) then cached
    else if MakeAnswer(a) == OK then Some(Cached(path[..a.mount.value], a.constructed.value))
    else None
  }

  /** The checks that TEARDOWN, PAUSE, PLAY and RECORD share. */
  function Aggregate(w: World, r: Request): (st: Status)
    ensures st == OK ==> TargetOf(w, r).Some? && |Target(w, r).path| == |r.uri.path|
  {
    if SessionOf(w, r).None? then SESSION_NOT_FOUND
    else if !r.uri.Path? then BAD_REQUEST
    else if TargetOf(w, r).None? then NOT_FOUND
    else if |Target(w, r).path| != |r.uri.path| then ONLY_AGGREGATE_OPERATION_ALLOWED
    else OK
  }

  function TeardownAnswer(w: World, r: Request, a: Answers): (st: Status) {
    if Aggregate(w, r) != OK then Aggregate(w, r) else a.preSignal
  }

  function PauseAnswer(w: World, r: Request, a: Answers): (st: Status) {
    if Aggregate(w, r) != OK then Aggregate(w, r)
    else if !a.pausable then BAD_REQUEST
    else if a.preSignal != OK then a.preSignal
    else if !Target(w, r).state.Playing? && !Target(w, r).state.Recording? then METHOD_NOT_VALID_IN_THIS_STATE
    else OK
  }

  /** The state, pipeline and suspension checks of PLAY and RECORD. */
  function StartAnswer(m: Managed, a: Answers): Status {
    if !m.state.Playing? && !m.state.Ready? then METHOD_NOT_VALID_IN_THIS_STATE
    else if !a.pipeline then METHOD_NOT_VALID_IN_THIS_STATE
    else if !a.unsuspends then SERVICE_UNAVAILABLE
    else OK
  }

  /** The seek, and the headers of the response to PLAY. */
  function PlayModeAnswer(a: Answers): Status {
    if a.playMode != OK then a.playMode
    else if !a.rtpInfo || !a.rates then INTERNAL_SERVER_ERROR
    else a.playResponse
  }

  function PlayAnswer(w: World, r: Request, a: Answers): (st: Status) {
    if Aggregate(w, r) != OK then Aggregate(w, r)
    else if a.preSignal != OK then a.preSignal
    else if !a.plays then METHOD_NOT_ALLOWED
    else if StartAnswer(Target(w, r), a) != OK then StartAnswer(Target(w, r), a)
    else PlayModeAnswer(a)
  }

  function RecordAnswer(w: World, r: Request, a: Answers): (st: Status) {
    if Aggregate(w, r) != OK then Aggregate(w, r)
    else if a.preSignal != OK then a.preSignal
    else if !a.records then METHOD_NOT_ALLOWED
    else StartAnswer(Target(w, r), a)
  }

  function ParameterAnswer(r: Request, a: Answers): Status {
    if a.preSignal != OK then a.preSignal
    else if !a.bodyReads then BAD_REQUEST
    else if r.body then PARAMETER_NOT_UNDERSTOOD
    else if r.verb.GetParameter? && r.version.Rtsp20? then BAD_REQUEST
    else OK
  }

  function DescribeAnswer(c: Config, w: World, r: Request, a: Answers): Status {
    if !r.uri.Path? then BAD_REQUEST
    else if a.preSignal != OK then a.preSignal
    else if !c.mountPoints || !a.makesPath then NOT_FOUND
    else if FindAnswer(c, w.cached, r.uri.path, false, a) != OK then FindAnswer(c, w.cached, r.uri.path, false, a)
    else if !a.plays then METHOD_NOT_ALLOWED
    else if !a.sdp then SERVICE_UNAVAILABLE
    else OK
  }

  function AnnounceAnswer(c: Config, w: World, r: Request, a: Answers): Status {
    if !r.uri.Path? then BAD_REQUEST
    else if !c.mountPoints then NOT_FOUND
    else if !a.contentType || !r.body || !a.sdpParses then BAD_REQUEST
    else if !a.makesPath then NOT_FOUND
    else if FindAnswer(c, w.cached, r.uri.path, false, a) != OK then FindAnswer(c, w.cached, r.uri.path, false, a)
    else if a.preSignal != OK then a.preSignal
    else if !a.records then METHOD_NOT_ALLOWED
    else if !a.sdpHandled then UNSUPPORTED_MEDIA_TYPE
    else OK
  }

  // SETUP goes through four stages: what it needs before it looks for a media, the media
  // and its stream, the session, and the transport.

  function SetupHead(c: Config, r: Request): Status {
    if !r.uri.Path? then BAD_REQUEST
    else if !r.transport then UNSUPPORTED_TRANSPORT
    else if !c.pool then SESSION_NOT_FOUND
    else OK
  }

  function SetupFind(c: Config, w: World, r: Request, a: Answers): Status
    requires r.uri.Path? && MountOk(a.mount, r.uri.path)
  {
    if TargetOf(w, r).None? && FindAnswer(c, w.cached, r.uri.path, true, a) != OK
    then FindAnswer(c, w.cached, r.uri.path, true, a)
    else StreamAnswer(MatchedLength(w, r, a), r.uri.path, a)
  }

  /** How much of the path the managed media or else the mount point matched. */
  function MatchedLength(w: World, r: Request, a: Answers): nat {
    if TargetOf(w, r).Some? then |Target(w, r).path| else if a.mount.Some? then a.mount.value else 0
  }

  /** A whole path needs a media of one stream; what is left of a path names the stream. */
  function StreamAnswer(matched: nat, path: string, a: Answers): Status {
    if matched == |path| && !a.oneStream then NOT_FOUND
    else if matched != |path| && !a.control then NOT_FOUND
    else a.preSignal
  }

  /** From the session to the transport; `managed` when the session already has the media. */
  function SetupRest(managed: bool, a: Answers): Status {
    if !a.blocksize then BAD_REQUEST
    else if !a.transportKnown || !a.modeFits then UNSUPPORTED_TRANSPORT
    else if !a.keyManagement then KEY_MANAGEMENT_FAILURE
    else if !a.rangeUnit then NOT_IMPLEMENTED
    else if !managed && !a.manages then SERVICE_UNAVAILABLE
    else OK
  }

  /** SETUP up to the point where the client's transport is configured. */
  function SetupBeforeTransport(c: Config, w: World, r: Request, a: Answers): Status
    requires r.uri.Path? ==> MountOk(a.mount, r.uri.path)
  {
    if SetupHead(c, r) != OK then SetupHead(c, r)
    else if SetupFind(c, w, r, a) != OK then SetupFind(c, w, r, a)
    else if SessionOf(w, r).None? && a.newSession.None? then SERVICE_UNAVAILABLE
    else SetupRest(TargetOf(w, r).Some?, a)
  }

  /** Whether the client may choose the address of its multicast transport. */
  predicate MayChoose(c: Config, a: Answers) {
    c.auth.Some? && Authenticated(c, a) && a.clientSettings
  }

  /** Configuring the transport: an address that the client chose needs a valid ttl. */
  predicate TransportOk(c: Config, r: Request, a: Answers) {
    && (r.multicast && MayChoose(c, a) && r.destination ==> a.ttl)
    && a.transportConfigured
  }

  function SetupAnswer(c: Config, w: World, r: Request, a: Answers): Status
    requires r.uri.Path? ==> MountOk(a.mount, r.uri.path)
  {
    if SetupBeforeTransport(c, w, r, a) != OK then SetupBeforeTransport(c, w, r, a)
    else if !TransportOk(c, r, a) then UNSUPPORTED_TRANSPORT
    else OK
  }

  /**
   Configuring a multicast transport asks whether the client may choose its settings. An
   unauthenticated client is then challenged, and the SETUP still goes on.
   */
  predicate SetupChallenged(c: Config, w: World, r: Request, a: Answers)
    requires r.uri.Path? ==> MountOk(a.mount, r.uri.path)
  {
    SetupBeforeTransport(c, w, r, a) == OK && r.multicast && !Authenticated(c, a)
  }

  /** What the handler of the method answers. */
  function HandlerAnswer(c: Config, w: World, r: Request, a: Answers): Status
    requires AnswersOk(w, r, a)
  {
    match r.verb
    case Options => a.preSignal
    case Describe => DescribeAnswer(c, w, r, a)
    case Setup => SetupAnswer(c, w, r, a)
    case Play => PlayAnswer(w, r, a)
    case Pause => PauseAnswer(w, r, a)
    case Teardown => TeardownAnswer(w, r, a)
    case SetParameter => ParameterAnswer(r, a)
    case GetParameter => ParameterAnswer(r, a)
    case Announce => if r.version.Rtsp20? then BAD_REQUEST else AnnounceAnswer(c, w, r, a)
    case Record => if r.version.Rtsp20? then BAD_REQUEST else RecordAnswer(w, r, a)
    case Redirect => NOT_IMPLEMENTED
    case Invalid => BAD_REQUEST
  }

  /** The status of the last response to a request. */
  function Answer(c: Config, w: World, r: Request, a: Answers): Status
    requires AnswersOk(w, r, a)
  {
    if Prelude(c, w, r, a) != OK then Prelude(c, w, r, a) else HandlerAnswer(c, w, r, a)
  }

  /** All the responses to a request, in the order they are sent. */
  function Replies(c: Config, w: World, r: Request, a: Answers): seq<Status>
    requires AnswersOk(w, r, a)
  {
    if Prelude(c, w, r, a) == OK && r.verb.Setup? && SetupChallenged(c, w, r, a)
    then [UNAUTHORIZED, Answer(c, w, r, a)] else [Answer(c, w, r, a)]
  }

  // ------------------------------------------------------ what each request changes

  function SetState(w: World, s: SessionId, i: nat, state: RtspState): World
    requires s in w.sessions && i < |w.sessions[s]|
  {
    w.(sessions := w.sessions[s := w.sessions[s][i := w.sessions[s][i].(state := state)]])
  }

  /** Taking a media out of a session also removes the session when it was the last one. */
  function Release(w: World, s: SessionId, i: nat): World
    requires s in w.sessions && i < |w.sessions[s]|
  {
    var rest := w.sessions[s][..i] + w.sessions[s][i + 1..];
    w.(sessions := if rest == [] then w.sessions - {s} else w.sessions[s := rest])
  }

  function Manage(w: World, s: SessionId, m: Managed): World
    requires s in w.sessions
  {
    w.(sessions := w.sessions[s := [m] + w.sessions[s]], cached := None)
  }

  function AfterSetupFind(c: Config, w: World, r: Request, a: Answers): World
    requires r.uri.Path? && MountOk(a.mount, r.uri.path)
  {
    if TargetOf(w, r).Some? then w
    else w.(cached := CacheAfter(c, w.cached, r.uri.path, true, a))
  }

  /** The session of a SETUP: its own, or else a new one. */
  function SessionFor(session: Option<SessionId>, a: Answers): SessionId
    requires session.Some? || a.newSession.Some?
  {
    if session.Some? then session.value else a.newSession.value
  }

  function AfterSetupSession(w: World, session: Option<SessionId>, r: Request, a: Answers): World
    requires session.Some? || a.newSession.Some?
  {
    var w1 := if session.Some? then w
              else w.(sessions := w.sessions[a.newSession.value := []], pipelined := map[]);
    if r.version.Rtsp20? && r.pipelined.Some?
    then w1.(pipelined := w1.pipelined[r.pipelined.value := SessionFor(session, a)]) else w1
  }

  /** A SETUP that fails takes its new session back. */
  function Undo(w: World, s: SessionId, isNew: bool): World {
    if isNew then w.(sessions := w.sessions - {s}) else w
  }

  /** From the session on: the media is managed, and made ready unless it is past that. */
  function AfterSetupRest(w: World, s: SessionId, target: Option<nat>, entry: Cached,
                          isNew: bool, connected: bool, a: Answers): World
    requires s in w.sessions && (target.Some? ==> target.value < |w.sessions[s]|)
  {
    if SetupRest(target.Some?, a) != OK then Undo(w, s, isNew)
    else if target.Some? then
      if !connected then Undo(w, s, isNew)
      else if w.sessions[s][target.value].state.Init? then SetState(w, s, target.value, Ready)
      else w
    else
      var managed := Manage(w, s, Managed(entry.path, entry.media, Init));
      if connected then SetState(managed, s, 0, Ready) else Undo(managed, s, isNew)
  }

  function AfterSetup(c: Config, w: World, r: Request, a: Answers): World
    requires r.uri.Path? ==> MountOk(a.mount, r.uri.path)
  {
    if SetupHead(c, r) != OK then w
    else
      var found := AfterSetupFind(c, w, r, a);
      if SetupFind(c, w, r, a) != OK || (SessionOf(w, r).None? && a.newSession.None?) then found
      else
        var entry := if TargetOf(w, r).Some? then Cached(Target(w, r).path, Target(w, r).media)
                     else found.cached.value;
        AfterSetupRest(AfterSetupSession(found, SessionOf(w, r), r, a), SessionFor(SessionOf(w, r), a),
                       TargetOf(w, r), entry, SessionOf(w, r).None?, TransportOk(c, r, a), a)
  }

  /** What an accepted PLAY, RECORD, PAUSE or TEARDOWN does to its media. */
  function Moved(w: World, verb: Method, s: SessionId, i: nat): World
    requires s in w.sessions && i < |w.sessions[s]|
  {
    match verb
    case Play => SetState(w, s, i, Playing)
    case Record => SetState(w, s, i, Playing)
    case Pause => SetState(w, s, i, Ready)
    case Teardown => Release(w, s, i)
    case _ => w
  }

  function AfterHandler(c: Config, w: World, r: Request, a: Answers): World
    requires AnswersOk(w, r, a)
  {
    match r.verb
    case Setup => AfterSetup(c, w, r, a)
    case Describe =>
      if r.uri.Path? && a.preSignal == OK && c.mountPoints && a.makesPath
      then w.(cached := CacheAfter(c, w.cached, r.uri.path, false, a)) else w
    case Announce =>
      if !r.version.Rtsp20? && r.uri.Path? && a.contentType && r.body && a.sdpParses && c.mountPoints && a.makesPath
      then w.(cached := CacheAfter(c, w.cached, r.uri.path, false, a)) else w
    case _ =>
      if HandlerAnswer(c, w, r, a) != OK || TargetOf(w, r).None? then w
      else Moved(w, r.verb, SessionOf(w, r).value, TargetOf(w, r).value)
  }

  function After(c: Config, w: World, r: Request, a: Answers): World
    requires AnswersOk(w, r, a)
  {
    if Prelude(c, w, r, a) != OK then w else AfterHandler(c, w, r, a)
  }
}
