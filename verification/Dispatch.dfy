/**
 The request dispatcher as it is written: handlers that look a media up, lock it, send
 responses on the way and unlock it on every path out. Each method is proved to send, to
 change and to hold exactly what `DispatchModel` says.
 */
module Dispatcher {
  import opened Basics
  import opened DispatchModel

  class Client {
    const config: Config
    var sessions: map<SessionId, seq<Managed>>
    var pipelined: map<string, SessionId>
    var cached: Option<Cached>
    /** Whether the context of the current request has a token. */
    var token: bool
    /** The media locks held, once for each time a media is locked. */
    var held: multiset<Media>
    /** The status of every response sent. */
    var sent: seq<Status>

    constructor (config: Config)
      ensures this.config == config && W() == EMPTY_WORLD
      ensures held == multiset{} && sent == []
    {
      this.config := config;
      sessions, pipelined, cached := map[], map[], None;
      token, held, sent := false, multiset{}, [];
    }

    /** Everything about the client that outlives a request. */
    ghost function W(): World
      reads this
    {
      World(sessions, pipelined, cached)
    }

    method Send(status: Status)
      modifies this`sent
      ensures sent == old(sent) + [status]
    {
      sent := sent + [status];
    }

    method Lock(media: Media)
      modifies this`held
      ensures held == old(held) + multiset{media}
    {
      held := held + multiset{media};
    }

    /** Takes back one lock; `before` is what was held besides it. */
    method Unlock(media: Media, ghost before: multiset<Media>)
      requires held == before + multiset{media}
      modifies this`held
      ensures held == before
    {
      held := held - multiset{media};
    }

    // ------------------------------------------------------------------ authentication

    /** A token is never there for a client that could not get one. */
    ghost predicate TokenOk(a: Answers)
      reads this
    {
      config.auth.Some? && token ==> Authenticated(config, a)
    }

    method EnsureAuthenticated(a: Answers) returns (ok: bool)
      requires config.auth.Some? && TokenOk(a)
      modifies this`token, this`sent
      ensures ok == token == Authenticated(config, a)
      ensures sent == old(sent) + if ok then [] else [UNAUTHORIZED]
    {
      if !token {
        token := config.auth.value.defaultToken;
        if a.credentials {
          token := true;
        }
      }
      if !token {
        Send(UNAUTHORIZED);
        return false;
      }
      return true;
    }

    method CheckUrl(verb: Method, a: Answers) returns (ok: bool)
      requires TokenOk(a)
      modifies this`token, this`sent
      ensures TokenOk(a)
      ensures ok <==> (config.auth.Some? && verb in config.auth.value.methods ==> Authenticated(config, a))
      ensures sent == old(sent) + if ok then [] else [UNAUTHORIZED]
    {
      if config.auth.None? {
        return true;
      }
      if verb in config.auth.value.methods {
        ok := EnsureAuthenticated(a);
        return;
      }
      return true;
    }

    /** `permission` is what the permissions of the factory say to the role of the token. */
    method CheckFactory(permission: Status, a: Answers) returns (ok: bool)
      requires TokenOk(a)
      modifies this`token, this`sent
      ensures TokenOk(a)
      ensures ok <==> (config.auth.Some? ==> Authenticated(config, a) && permission == OK)
      ensures ok || Authenticated(config, a) ==> sent == old(sent) + if ok then [] else [permission]
      ensures !ok && !Authenticated(config, a) ==> sent == old(sent) + [UNAUTHORIZED]
    {
      if config.auth.None? {
        return true;
      }
      ok := EnsureAuthenticated(a);
      if ok && permission != OK {
        Send(permission);
        return false;
      }
    }

    /** Whether the client may choose its transport settings; never without an auth object. */
    method CheckClientSettings(a: Answers) returns (ok: bool)
      requires TokenOk(a)
      modifies this`token, this`sent
      ensures TokenOk(a)
      ensures ok <==> MayChoose(config, a)
      ensures sent == old(sent) + if Authenticated(config, a) then [] else [UNAUTHORIZED]
    {
      if config.auth.None? {
        return false;
      }
      ok := EnsureAuthenticated(a);
      if ok {
        ok := a.clientSettings;
      }
    }

    // ------------------------------------------------------------------- finding media

    /** The walk over the managed media of a session for the largest match. */
    method GetMedia(s: SessionId, path: string) returns (result: Option<nat>, matched: nat)
      requires s in sessions
      ensures result == Find(sessions[s], path)
      ensures matched == if result.Some? then |sessions[s][result.value].path| else 0
    {
      var ms := sessions[s];
      var best := 0;
      var walk := 0;
      result := None;
      while walk < |ms|
        invariant walk <= |ms|
        invariant result == Best(ms, path, walk)
        invariant best == if result.Some? then |ms[result.value].path| else 0
      {
        if Matches(ms[walk].path, path) && best < |ms[walk].path| {
          result, best := Some(walk), |ms[walk].path|;
        }
        walk := walk + 1;
      }
      matched := best;
    }

    method FindFactory(path: string, prefix: bool, a: Answers) returns (ok: bool)
      requires TokenOk(a)
      modifies this`token, this`sent
      ensures TokenOk(a)
      ensures ok <==> FactoryAnswer(config, path, prefix, a) == OK
      ensures sent == old(sent) + if ok then [] else [FactoryAnswer(config, path, prefix, a)]
    {
      if !config.mountPoints || a.mount.None? || (!prefix && a.mount.value != |path|) {
        Send(NOT_FOUND);
        return false;
      }
      ok := CheckFactory(a.access, a);
      if ok {
        ok := CheckFactory(a.construct, a);
      }
    }

    /** Makes a media and prepares it, unless it records; it comes back locked. */
    method MakeMedia(a: Answers) returns (media: Option<Media>)
      modifies this`sent, this`held
      ensures media == if MakeAnswer(a) == OK then a.constructed else None
      ensures sent == old(sent) + if media.Some? then [] else [MakeAnswer(a)]
      ensures held == old(held) + if media.Some? then multiset{media.value} else multiset{}
    {
      ghost var before := held;
      if a.constructed.None? {
        Send(BAD_REQUEST);
        return None;
      }
      Lock(a.constructed.value);
      if !a.records {
        if !a.thread {
          Send(SERVICE_UNAVAILABLE);
          Unlock(a.constructed.value, before);
          return None;
        }
        if !a.prepares {
          Send(SERVICE_UNAVAILABLE);
          Unlock(a.constructed.value, before);
          return None;
        }
      }
      return a.constructed;
    }

    /** Finds or makes the media of a path and locks it, or answers why there is none. */
    method FindMedia(path: string, prefix: bool, a: Answers) returns (media: Option<Media>, matched: nat)
      requires MountOk(a.mount, path) && TokenOk(a)
      modifies this`cached, this`token, this`sent, this`held
      ensures TokenOk(a)
      ensures media.Some? <==> FindAnswer(config, old(cached), path, prefix, a) == OK
      ensures sent == old(sent) + if media.Some? then [] else [FindAnswer(config, old(cached), path, prefix, a)]
      ensures cached == CacheAfter(config, old(cached), path, prefix, a)
      ensures media.Some? ==> a.mount == Some(matched) && cached == Some(Cached(path[..matched], media.value))
      // the media of the same path as before, or else a new one
      ensures media.Some? ==> old(cached) == cached || media == a.constructed
      ensures media.Some? && old(cached).Some? && old(cached).value.path == path[..matched] ==> old(cached) == cached
      ensures held == old(held) + if media.Some? then multiset{media.value} else multiset{}
    {
      media, matched := None, 0;
      var ok := FindFactory(path, prefix, a);
      if !ok {
        return;
      }
      matched := if prefix then a.mount.value else |path|;
      if cached.Some? && cached.value.path == path[..matched] {
        Lock(cached.value.media);
        return Some(cached.value.media), matched;
      }
      cached := None;
      media := MakeMedia(a);
      if media.Some? {
        cached := Some(Cached(path[..matched], media.value));
      }
    }

    method SetRtspState(s: SessionId, i: nat, state: RtspState)
      requires s in sessions && i < |sessions[s]|
      modifies this`sessions
      ensures W() == SetState(old(W()), s, i, state)
    {
      sessions := sessions[s := sessions[s][i := sessions[s][i].(state := state)]];
    }

    /** Takes a media out of its session, and drops a session that is left with none. */
    method ReleaseMedia(s: SessionId, i: nat)
      requires s in sessions && i < |sessions[s]|
      modifies this`sessions
      ensures W() == Release(old(W()), s, i)
    {
      var rest := sessions[s][..i] + sessions[s][i + 1..];
      if rest != [] {
        sessions := sessions[s := rest];
      } else {
        sessions := sessions - {s};
      }
    }

    // ---------------------------------------------------------------------- handlers

    /** The way into TEARDOWN, PAUSE, PLAY and RECORD: the media under the whole path. */
    method AggregateMedia(r: Request, session: Option<SessionId>) returns (s: SessionId, i: nat, ok: bool)
      requires session == SessionOf(W(), r)
      modifies this`sent
      ensures ok <==> Aggregate(W(), r) == OK
      ensures ok ==> session == Some(s) && TargetOf(W(), r) == Some(i)
      ensures sent == old(sent) + if ok then [] else [Aggregate(W(), r)]
    {
      s, i, ok := 0, 0, false;
      if session.None? {
        Send(SESSION_NOT_FOUND);
        return;
      }
      if !r.uri.Path? {
        Send(BAD_REQUEST);
        return;
      }
      var found, matched := GetMedia(session.value, r.uri.path);
      if found.None? {
        Send(NOT_FOUND);
        return;
      }
      if matched != |r.uri.path| {
        Send(ONLY_AGGREGATE_OPERATION_ALLOWED);
        return;
      }
      return session.value, found.value, true;
    }

    method HandleTeardown(r: Request, a: Answers, session: Option<SessionId>)
      requires session == SessionOf(W(), r)
      modifies this`sent, this`held, this`sessions
      ensures sent == old(sent) + [TeardownAnswer(old(W()), r, a)]
      ensures held == old(held)
      ensures W() == if TeardownAnswer(old(W()), r, a) == OK
                     then Release(old(W()), session.value, TargetOf(old(W()), r).value) else old(W())
    {
      ghost var before := held;
      ghost var w := W();
      var s, i, ok := AggregateMedia(r, session);
      if !ok {
        return;
      }
      assert W() == w;
      var media := sessions[s][i].media;
      Lock(media);
      if a.preSignal != OK {
        Send(a.preSignal);
        Unlock(media, before);
        return;
      }
      ReleaseMedia(s, i);
      Send(OK);
      Unlock(media, before);
    }

    method HandlePause(r: Request, a: Answers, session: Option<SessionId>)
      requires session == SessionOf(W(), r)
      modifies this`sent, this`held, this`sessions
      ensures sent == old(sent) + [PauseAnswer(old(W()), r, a)]
      ensures held == old(held)
      ensures W() == if PauseAnswer(old(W()), r, a) == OK
                     then SetState(old(W()), session.value, TargetOf(old(W()), r).value, Ready) else old(W())
    {
      ghost var before := held;
      var s, i, ok := AggregateMedia(r, session);
      if !ok {
        return;
      }
      var media := sessions[s][i].media;
      Lock(media);
      if !a.pausable {
        Send(BAD_REQUEST);
        Unlock(media, before);
        return;
      }
      if a.preSignal != OK {
        Send(a.preSignal);
        Unlock(media, before);
        return;
      }
      var state := sessions[s][i].state;
      if state != Playing && state != Recording {
        Send(METHOD_NOT_VALID_IN_THIS_STATE);
        Unlock(media, before);
        return;
      }
      Send(OK);
      SetRtspState(s, i, Ready);
      Unlock(media, before);
    }

    /** The state, the pipeline and the suspension of a media that is to play; it stays
        locked if all is well. */
    method StartMedia(s: SessionId, i: nat, a: Answers, media: Media, ghost before: multiset<Media>) returns (ok: bool)
      requires s in sessions && i < |sessions[s]| && held == before + multiset{media}
      modifies this`sent, this`held
      ensures ok <==> StartAnswer(sessions[s][i], a) == OK
      ensures sent == old(sent) + if ok then [] else [StartAnswer(sessions[s][i], a)]
      ensures held == if ok then old(held) else before
    {
      ok := false;
      var state := sessions[s][i].state;
      if state != Playing && state != Ready {
        Send(METHOD_NOT_VALID_IN_THIS_STATE);
        Unlock(media, before);
        return;
      }
      if !a.pipeline {
        Send(METHOD_NOT_VALID_IN_THIS_STATE);
        Unlock(media, before);
        return;
      }
      if !a.unsuspends {
        Send(SERVICE_UNAVAILABLE);
        Unlock(media, before);
        return;
      }
      ok := true;
    }

    /** The play mode and the headers of the response to PLAY; the media stays locked if
        all is well. */
    method PreparePlay(a: Answers, media: Media, ghost before: multiset<Media>) returns (ok: bool)
      requires held == before + multiset{media}
      modifies this`sent, this`held
      ensures ok <==> PlayModeAnswer(a) == OK
      ensures sent == old(sent) + if ok then [] else [PlayModeAnswer(a)]
      ensures held == if ok then old(held) else before
    {
      ok := false;
      if a.playMode != OK {
        Send(a.playMode);
        Unlock(media, before);
        return;
      }
      if !a.rtpInfo {
        Send(INTERNAL_SERVER_ERROR);
        Unlock(media, before);
        return;
      }
      if !a.rates {
        Send(INTERNAL_SERVER_ERROR);
        Unlock(media, before);
        return;
      }
      if a.playResponse != OK {
        Send(a.playResponse);
        Unlock(media, before);
        return;
      }
      ok := true;
    }

    method HandlePlay(r: Request, a: Answers, session: Option<SessionId>)
      requires session == SessionOf(W(), r)
      modifies this`sent, this`held, this`sessions
      ensures sent == old(sent) + [PlayAnswer(old(W()), r, a)]
      ensures held == old(held)
      ensures W() == if PlayAnswer(old(W()), r, a) == OK
                     then SetState(old(W()), session.value, TargetOf(old(W()), r).value, Playing) else old(W())
    {
      ghost var before := held;
      var s, i, ok := AggregateMedia(r, session);
      if !ok {
        return;
      }
      var media := sessions[s][i].media;
      Lock(media);
      if a.preSignal != OK {
        Send(a.preSignal);
        Unlock(media, before);
        return;
      }
      if !a.plays {
        Send(METHOD_NOT_ALLOWED);
        Unlock(media, before);
        return;
      }
      ok := StartMedia(s, i, a, media, before);
      if !ok {
        return;
      }
      ok := PreparePlay(a, media, before);
      if !ok {
        return;
      }
      Send(OK);
      SetRtspState(s, i, Playing);
      Unlock(media, before);
    }

    /** Unlike the others RECORD takes no media lock. */
    method HandleRecord(r: Request, a: Answers, session: Option<SessionId>)
      requires session == SessionOf(W(), r)
      modifies this`sent, this`sessions
      ensures sent == old(sent) + [RecordAnswer(old(W()), r, a)]
      ensures W() == if RecordAnswer(old(W()), r, a) == OK
                     then SetState(old(W()), session.value, TargetOf(old(W()), r).value, Playing) else old(W())
    {
      var s, i, ok := AggregateMedia(r, session);
      if !ok {
        return;
      }
      if a.preSignal != OK {
        Send(a.preSignal);
        return;
      }
      if !a.records {
        Send(METHOD_NOT_ALLOWED);
        return;
      }
      var state := sessions[s][i].state;
      if state != Playing && state != Ready {
        Send(METHOD_NOT_VALID_IN_THIS_STATE);
        return;
      }
      if !a.pipeline {
        Send(METHOD_NOT_VALID_IN_THIS_STATE);
        return;
      }
      if !a.unsuspends {
        Send(SERVICE_UNAVAILABLE);
        return;
      }
      Send(OK);
      SetRtspState(s, i, Playing);
    }

    method HandleParameter(r: Request, a: Answers)
      modifies this`sent
      ensures sent == old(sent) + [ParameterAnswer(r, a)]
    {
      if a.preSignal != OK {
        Send(a.preSignal);
      } else if !a.bodyReads {
        Send(BAD_REQUEST);
      } else if r.body {
        Send(PARAMETER_NOT_UNDERSTOOD);
      } else if r.verb.GetParameter? && r.version.Rtsp20? {
        Send(BAD_REQUEST);
      } else {
        Send(OK);
      }
    }

    method HandleOptions(a: Answers)
      modifies this`sent
      ensures sent == old(sent) + [a.preSignal]
    {
      if a.preSignal != OK {
        Send(a.preSignal);
        return;
      }
      Send(OK);
    }

    method HandleDescribe(r: Request, a: Answers)
      requires AnswersOk(W(), r, a) && TokenOk(a)
      modifies this`sent, this`held, this`cached, this`token
      ensures sent == old(sent) + [DescribeAnswer(config, old(W()), r, a)]
      ensures held == old(held)
      ensures cached == if r.uri.Path? && a.preSignal == OK && config.mountPoints && a.makesPath
                        then CacheAfter(config, old(cached), r.uri.path, false, a) else old(cached)
    {
      ghost var before := held;
      if !r.uri.Path? {
        Send(BAD_REQUEST);
        return;
      }
      if a.preSignal != OK {
        Send(a.preSignal);
        return;
      }
      if !config.mountPoints || !a.makesPath {
        Send(NOT_FOUND);
        return;
      }
      var media, _ := FindMedia(r.uri.path, false, a);
      if media.None? {
        return;
      }
      if !a.plays {
        Send(METHOD_NOT_ALLOWED);
        Unlock(media.value, before);
        return;
      }
      if !a.sdp {
        Send(SERVICE_UNAVAILABLE);
        Unlock(media.value, before);
        return;
      }
      Send(OK);
      Unlock(media.value, before);
    }

    method HandleAnnounce(r: Request, a: Answers)
      requires AnswersOk(W(), r, a) && TokenOk(a)
      modifies this`sent, this`held, this`cached, this`token
      ensures sent == old(sent) + [AnnounceAnswer(config, old(W()), r, a)]
      ensures held == old(held)
      ensures cached == if r.uri.Path? && a.contentType && r.body && a.sdpParses && config.mountPoints && a.makesPath
                        then CacheAfter(config, old(cached), r.uri.path, false, a) else old(cached)
    {
      ghost var before := held;
      if !r.uri.Path? {
        Send(BAD_REQUEST);
        return;
      }
      if !config.mountPoints {
        Send(NOT_FOUND);
        return;
      }
      if !a.contentType || !r.body || !a.sdpParses {
        Send(BAD_REQUEST);
        return;
      }
      if !a.makesPath {
        Send(NOT_FOUND);
        return;
      }
      var media, _ := FindMedia(r.uri.path, false, a);
      if media.None? {
        return;
      }
      if a.preSignal != OK {
        Send(a.preSignal);
        Unlock(media.value, before);
        return;
      }
      if !a.records {
        Send(METHOD_NOT_ALLOWED);
        Unlock(media.value, before);
        return;
      }
      if !a.sdpHandled {
        Send(UNSUPPORTED_MEDIA_TYPE);
        Unlock(media.value, before);
        return;
      }
      Send(OK);
      Unlock(media.value, before);
    }

    /** The media a SETUP is about, from its session or found for it, comes back locked. */
    method TakeMedia(r: Request, a: Answers, session: Option<SessionId>)
      returns (ok: bool, target: Option<nat>, entry: Cached, matched: nat)
      requires AnswersOk(W(), r, a) && TokenOk(a) && session == SessionOf(W(), r) && r.uri.Path?
      modifies this`sent, this`held, this`cached, this`token
      ensures TokenOk(a) && target == TargetOf(old(W()), r)
      ensures ok <==> target.Some? || FindAnswer(config, old(cached), r.uri.path, true, a) == OK
      ensures sent == old(sent) + if ok then [] else [FindAnswer(config, old(cached), r.uri.path, true, a)]
      ensures cached == AfterSetupFind(config, old(W()), r, a).cached
      ensures held == old(held) + if ok then multiset{entry.media} else multiset{}
      ensures ok ==> matched == MatchedLength(old(W()), r, a)
      ensures target.Some? ==> entry == Cached(Target(old(W()), r).path, Target(old(W()), r).media)
      ensures ok && target.None? ==> cached == Some(entry)
    {
      var path := r.uri.path;
      target, entry, matched := None, Cached("", 0), 0;
      if session.Some? {
        target, matched := GetMedia(session.value, path);
      }
      if target.None? {
        var media;
        media, matched := FindMedia(path, true, a);
        if media.None? {
          return false, target, entry, matched;
        }
        entry := Cached(path[..matched], media.value);
      } else {
        var managed := sessions[session.value][target.value];
        entry := Cached(managed.path, managed.media);
        Lock(entry.media);
      }
      ok := true;
    }

    /** The stream of the media that the path names; the media stays locked if all is well. */
    method FindStream(path: string, matched: nat, a: Answers, media: Media, ghost before: multiset<Media>)
      returns (ok: bool)
      requires held == before + multiset{media}
      modifies this`sent, this`held
      ensures ok <==> StreamAnswer(matched, path, a) == OK
      ensures sent == old(sent) + if ok then [] else [StreamAnswer(matched, path, a)]
      ensures held == if ok then old(held) else before
    {
      ok := false;
      var stream;
      if matched == |path| {
        if !a.oneStream {
          Send(NOT_FOUND);
          Unlock(media, before);
          return;
        }
        stream := true;
      } else {
        stream := a.control;
      }
      if !stream {
        Send(NOT_FOUND);
        Unlock(media, before);
        return;
      }
      if a.preSignal != OK {
        Send(a.preSignal);
        Unlock(media, before);
        return;
      }
      ok := true;
    }

    /** SETUP up to its stream: the media comes back locked, or the request is answered. */
    method SetupMedia(r: Request, a: Answers, session: Option<SessionId>)
      returns (ok: bool, target: Option<nat>, entry: Cached)
      requires AnswersOk(W(), r, a) && TokenOk(a) && session == SessionOf(W(), r) && r.uri.Path?
      modifies this`sent, this`held, this`cached, this`token
      ensures TokenOk(a) && target == TargetOf(old(W()), r)
      ensures ok <==> SetupFind(config, old(W()), r, a) == OK
      ensures sent == old(sent) + if ok then [] else [SetupFind(config, old(W()), r, a)]
      ensures cached == AfterSetupFind(config, old(W()), r, a).cached
      ensures held == old(held) + if ok then multiset{entry.media} else multiset{}
      ensures ok && target.Some? ==> entry == Cached(Target(old(W()), r).path, Target(old(W()), r).media)
      ensures ok && target.None? ==> cached == Some(entry)
    {
      ghost var before := held;
      var matched;
      ok, target, entry, matched := TakeMedia(r, a, session);
      if !ok {
        return;
      }
      ok := FindStream(r.uri.path, matched, a, entry.media, before);
    }

    /** The end of every SETUP that fails once it has a session: it takes a new one back. */
    method CleanupSession(s: SessionId, isNew: bool)
      modifies this`sessions
      ensures W() == Undo(old(W()), s, isNew)
    {
      if isNew {
        sessions := sessions - {s};
      }
    }

    /** The end of those that fail while the media is locked and a transport is allocated. */
    method CleanupTransport(media: Media, s: SessionId, isNew: bool, ghost before: multiset<Media>)
      requires held == before + multiset{media}
      modifies this`sessions, this`held
      ensures W() == Undo(old(W()), s, isNew) && held == before
    {
      Unlock(media, before);
      CleanupSession(s, isNew);
    }

    /** `default_configure_client_media` answers a block size it cannot read by itself. */
    method ConfigureClientMedia(a: Answers) returns (ok: bool)
      modifies this`sent
      ensures ok == a.blocksize && sent == old(sent) + if ok then [] else [BAD_REQUEST]
    {
      ok := a.blocksize;
      if !ok {
        Send(BAD_REQUEST);
      }
    }

    /** `default_configure_client_transport`, which may challenge the client and go on. */
    method ConfigureClientTransport(r: Request, a: Answers) returns (ok: bool)
      requires TokenOk(a)
      modifies this`sent, this`token
      ensures ok == TransportOk(config, r, a)
      ensures sent == old(sent) + if r.multicast && !Authenticated(config, a) then [UNAUTHORIZED] else []
    {
      if r.multicast {
        var allowed := CheckClientSettings(a);
        if allowed && r.destination {
          if !a.ttl {
            return false;
          }
        }
      }
      ok := a.transportConfigured;
    }

    /** SETUP from its session to the media in it; the media is locked on entry, and stays
        locked if all is well. */
    method SetupMode(a: Answers, s: SessionId, managed: bool, media: Media, isNew: bool,
                     ghost before: multiset<Media>)
      returns (ok: bool)
      requires held == before + multiset{media}
      modifies this`sent, this`held, this`sessions
      ensures ok <==> SetupRest(managed, a) == OK
      ensures sent == old(sent) + if ok then [] else [SetupRest(managed, a)]
      ensures W() == if ok then old(W()) else Undo(old(W()), s, isNew)
      ensures held == if ok then old(held) else before
    {
      ok := ConfigureClientMedia(a);
      if !ok {
        Unlock(media, before);
        CleanupSession(s, isNew);
        return false;
      }
      if !a.transportKnown {
        Send(UNSUPPORTED_TRANSPORT);
        CleanupTransport(media, s, isNew, before);
        return false;
      }
      if !a.modeFits {
        Send(UNSUPPORTED_TRANSPORT);
        CleanupTransport(media, s, isNew, before);
        return false;
      }
      if !a.keyManagement {
        Send(KEY_MANAGEMENT_FAILURE);
        CleanupTransport(media, s, isNew, before);
        return false;
      }
      if !a.rangeUnit {
        Send(NOT_IMPLEMENTED);
        CleanupTransport(media, s, isNew, before);
        return false;
      }
      if !managed && !a.manages {
        Send(SERVICE_UNAVAILABLE);
        CleanupTransport(media, s, isNew, before);
        return false;
      }
    }

    /** The place of the media in its session, which manages it now if it did not. */
    method ManageMedia(s: SessionId, target: Option<nat>, entry: Cached) returns (i: nat)
      requires s in sessions && (target.Some? ==> target.value < |sessions[s]|)
      modifies this`cached, this`sessions
      ensures target.Some? ==> W() == old(W()) && i == target.value
      ensures target.None? ==> W() == Manage(old(W()), s, Managed(entry.path, entry.media, Init)) && i == 0
    {
      if target.Some? {
        return target.value;
      }
      sessions := sessions[s := [Managed(entry.path, entry.media, Init)] + sessions[s]];
      cached := None;
      i := 0;
    }

    /** A media that is INIT becomes READY, any other stays as it is. */
    method UpdateState(s: SessionId, i: nat)
      requires s in sessions && i < |sessions[s]|
      modifies this`sessions
      ensures W() == if old(sessions[s][i].state).Init? then SetState(old(W()), s, i, Ready) else old(W())
    {
      match sessions[s][i].state {
        case Playing =>
        case Recording =>
        case Ready =>
        case Init => SetRtspState(s, i, Ready);
      }
    }

    /** The transport of a media that the session manages, and the answer. */
    method FinishTransport(r: Request, a: Answers, s: SessionId, i: nat, media: Media, isNew: bool,
                           ghost before: multiset<Media>)
      requires s in sessions && i < |sessions[s]|
      requires TokenOk(a) && held == before + multiset{media}
      modifies this`sent, this`held, this`token, this`sessions
      ensures sent == old(sent) + (if r.multicast && !Authenticated(config, a) then [UNAUTHORIZED] else [])
                      + [if TransportOk(config, r, a) then OK else UNSUPPORTED_TRANSPORT]
      ensures W() == if !TransportOk(config, r, a) then Undo(old(W()), s, isNew)
                     else if old(sessions)[s][i].state.Init? then SetState(old(W()), s, i, Ready)
                     else old(W())
      ensures held == before
    {
      var ok := ConfigureClientTransport(r, a);
      if !ok {
        Send(UNSUPPORTED_TRANSPORT);
        CleanupTransport(media, s, isNew, before);
        return;
      }
      Send(OK);
      UpdateState(s, i);
      Unlock(media, before);
    }

    /** The rest of SETUP, from its session on; the media is locked on entry and not on
        return. */
    method SetupTransport(r: Request, a: Answers, s: SessionId, target: Option<nat>, entry: Cached, isNew: bool,
                          ghost before: multiset<Media>)
      requires s in sessions && (target.Some? ==> target.value < |sessions[s]|)
      requires TokenOk(a) && held == before + multiset{entry.media}
      requires isNew ==> target.None?
      modifies this`sent, this`held, this`cached, this`token, this`sessions
      ensures sent == old(sent)
                      + (if SetupRest(target.Some?, a) == OK && r.multicast && !Authenticated(config, a)
                         then [UNAUTHORIZED] else [])
                      + [if SetupRest(target.Some?, a) != OK then SetupRest(target.Some?, a)
                         else if !TransportOk(config, r, a) then UNSUPPORTED_TRANSPORT else OK]
      ensures W() == AfterSetupRest(old(W()), s, target, entry, isNew, TransportOk(config, r, a), a)
      ensures held == before
    {
      var ok := SetupMode(a, s, target.Some?, entry.media, isNew, before);
      if !ok {
        return;
      }
      var i := ManageMedia(s, target, entry);
      FinishTransport(r, a, s, i, entry.media, isNew, before);
    }

    /** The session of a SETUP, made when it has none; new sessions forget pipelined requests. */
    method JoinSession(r: Request, a: Answers, session: Option<SessionId>) returns (s: SessionId)
      requires session.Some? || a.newSession.Some?
      modifies this`sessions, this`pipelined
      ensures s == SessionFor(session, a)
      ensures W() == AfterSetupSession(old(W()), session, r, a)
    {
      if session.Some? {
        s := session.value;
      } else {
        s := a.newSession.value;
        sessions := sessions[s := []];
        pipelined := map[];
      }
      if r.version.Rtsp20? && r.pipelined.Some? {
        pipelined := pipelined[r.pipelined.value := s];
      }
    }

    /** SETUP of a path, with a transport and a session pool. */
    method SetupPath(r: Request, a: Answers, session: Option<SessionId>)
      requires AnswersOk(W(), r, a) && TokenOk(a) && session == SessionOf(W(), r)
      requires SetupHead(config, r) == OK
      modifies this`sent, this`held, this`cached, this`token, this`sessions, this`pipelined
      ensures sent == old(sent)
                      + (if SetupChallenged(config, old(W()), r, a) then [UNAUTHORIZED] else [])
                      + [SetupAnswer(config, old(W()), r, a)]
      ensures W() == AfterSetup(config, old(W()), r, a)
      ensures held == old(held)
    {
      ghost var before := held;
      ghost var w := W();
      var ok, target, entry := SetupMedia(r, a, session);
      assert W() == AfterSetupFind(config, w, r, a);
      if !ok {
        return;
      }
      if session.None? && a.newSession.None? {
        Send(SERVICE_UNAVAILABLE);
        Unlock(entry.media, before);
        return;
      }
      var s := JoinSession(r, a, session);
      SetupTransport(r, a, s, target, entry, session.None?, before);
    }

    method HandleSetup(r: Request, a: Answers, session: Option<SessionId>)
      requires AnswersOk(W(), r, a) && TokenOk(a) && session == SessionOf(W(), r)
      modifies this`sent, this`held, this`cached, this`token, this`sessions, this`pipelined
      ensures sent == old(sent)
                      + (if SetupChallenged(config, old(W()), r, a) then [UNAUTHORIZED] else [])
                      + [SetupAnswer(config, old(W()), r, a)]
      ensures W() == AfterSetup(config, old(W()), r, a)
      ensures held == old(held)
    {
      if !r.uri.Path? {
        Send(BAD_REQUEST);
        return;
      }
      if !r.transport {
        Send(UNSUPPORTED_TRANSPORT);
        return;
      }
      if !config.pool {
        Send(SESSION_NOT_FOUND);
        return;
      }
      SetupPath(r, a, session);
    }

    // -------------------------------------------------------------------- dispatching

    /** Everything checked before a handler is chosen; the session comes back when it passes. */
    method Prepare(r: Request, a: Answers) returns (ok: bool, session: Option<SessionId>)
      modifies this`sent, this`token
      ensures TokenOk(a)
      ensures ok <==> Prelude(config, W(), r, a) == OK
      ensures ok ==> session == SessionOf(W(), r)
      ensures sent == old(sent) + if ok then [] else [Prelude(config, W(), r, a)]
    {
      ok, session, token := false, None, false;
      if r.version.OtherVersion? {
        Send(VERSION_NOT_SUPPORTED);
        return;
      }
      if r.uri.Unparsable? {
        Send(BAD_REQUEST);
        return;
      }
      var name: Option<SessionId> := None;
      if r.pipelined.Some? && r.pipelined.value in pipelined {
        name := Some(pipelined[r.pipelined.value]);
      }
      if name.None? {
        name := r.session;
      }
      if name.Some? {
        if !config.pool {
          Send(SESSION_NOT_FOUND);
          return;
        }
        if name.value !in sessions {
          Send(SESSION_NOT_FOUND);
          return;
        }
        session := name;
      }
      var allowed := CheckUrl(r.verb, a);
      if !allowed {
        return;
      }
      if !a.requirements {
        Send(OPTION_NOT_SUPPORTED);
        return;
      }
      ok := true;
    }

    /** The requests about a media that a session manages. */
    method HandleManaged(r: Request, a: Answers, session: Option<SessionId>)
      requires AnswersOk(W(), r, a) && session == SessionOf(W(), r)
      requires r.verb in {Play, Pause, Teardown, Record}
      modifies this`sent, this`held, this`sessions
      ensures sent == old(sent) + [HandlerAnswer(config, old(W()), r, a)]
      ensures held == old(held)
      ensures W() == AfterHandler(config, old(W()), r, a)
    {
      if r.verb.Play? {
        HandlePlay(r, a, session);
      } else if r.verb.Pause? {
        HandlePause(r, a, session);
      } else if r.verb.Teardown? {
        HandleTeardown(r, a, session);
      } else if r.version.Rtsp20? {
        Send(BAD_REQUEST);
      } else {
        HandleRecord(r, a, session);
      }
    }

    /** Answers one request, and holds the media locks it held before. */
    method HandleRequest(r: Request, a: Answers)
      requires AnswersOk(W(), r, a)
      modifies this
      ensures sent == old(sent) + Replies(config, old(W()), r, a)
      ensures W() == After(config, old(W()), r, a)
      ensures held == old(held)
    {
      var ok, session := Prepare(r, a);
      if !ok {
        return;
      }
      if r.verb in {Play, Pause, Teardown, Record} {
        HandleManaged(r, a, session);
        return;
      }
      match r.verb {
        case Options => HandleOptions(a);
        case Describe => HandleDescribe(r, a);
        case Setup => HandleSetup(r, a, session);
        case SetParameter => HandleParameter(r, a);
        case GetParameter => HandleParameter(r, a);
        case Announce =>
          if r.version.Rtsp20? {
            Send(BAD_REQUEST);
          } else {
            HandleAnnounce(r, a);
          }
        case Redirect => Send(NOT_IMPLEMENTED);
        case Invalid => Send(BAD_REQUEST);
      }
    }
  }
}
