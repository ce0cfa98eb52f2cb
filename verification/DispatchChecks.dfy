/**
 What decides the answer to a request, as a list: every handler is a row of checks, the
 first one that fails decides, and nothing else does. From that: exactly when a request is
 accepted, what a single objection leads to, and what an accepted request leaves behind.
 */
module DispatchChecks {
  import opened Basics
  import opened DispatchModel
  import opened DispatchRuns

  /** Something that must hold, and the status of the response if it does not. */
  datatype Check = Check(holds: bool, otherwise: Status)

  ghost predicate AllHold(cs: seq<Check>) {
    forall k :: 0 <= k < |cs| ==> cs[k].holds
  }

  /** Check `k` is the first one that does not hold. */
  ghost predicate FailsFirst(cs: seq<Check>, k: int) {
    0 <= k < |cs| && !cs[k].holds && forall j :: 0 <= j < k ==> cs[j].holds
  }

  /** The status is that of the first check that does not hold, OK if there is none. */
  ghost predicate Decide(cs: seq<Check>, st: Status) {
    (AllHold(cs) && st == OK) || (exists k :: FailsFirst(cs, k) && cs[k].otherwise == st)
  }

  /** The checks leave no choice. */
  lemma DecideOnce(cs: seq<Check>, st: Status, other: Status)
    requires Decide(cs, st) && Decide(cs, other)
    ensures st == other
  {
  }

  lemma DecideConcat(cs: seq<Check>, more: seq<Check>, st: Status)
    requires if AllHold(cs) then Decide(more, st) else Decide(cs, st)
    ensures Decide(cs + more, st)
  {
    var all := cs + more;
    if AllHold(cs) {
      if k :| FailsFirst(more, k) && more[k].otherwise == st {
        assert FailsFirst(all, |cs| + k);
      }
    } else {
      var k :| FailsFirst(cs, k) && cs[k].otherwise == st;
      assert FailsFirst(all, k);
    }
  }

  // ------------------------------------------------------------------- the checks

  /** Neither the URL nor the factory needs more than the client shows. */
  predicate LetIn(c: Config, a: Answers) {
    c.auth.None? || c.auth.value.defaultToken || a.credentials
  }

  /** The checks before any handler. A session that the request names must be there. */
  function Arrival(c: Config, w: World, r: Request, a: Answers): seq<Check> {
    [Check(!r.version.OtherVersion?, VERSION_NOT_SUPPORTED),
     Check(!r.uri.Unparsable?, BAD_REQUEST),
     Check(Named(w, r).None? || (c.pool && Named(w, r).value in w.sessions), SESSION_NOT_FOUND),
     Check(LetIn(c, a) || r.verb !in c.auth.value.methods, UNAUTHORIZED),
     Check(a.requirements, OPTION_NOT_SUPPORTED)]
  }

  /** The checks of a request for a managed media. */
  function Covering(w: World, r: Request): seq<Check> {
    [Check(SessionOf(w, r).Some?, SESSION_NOT_FOUND),
     Check(r.uri.Path?, BAD_REQUEST),
     Check(TargetOf(w, r).Some?, NOT_FOUND),
     Check(TargetOf(w, r).Some? && |Target(w, r).path| == |r.uri.path|, ONLY_AGGREGATE_OPERATION_ALLOWED)]
  }

  /** The media of the last path is kept by the client. */
  predicate IsKept(w: World, r: Request, a: Answers) {
    && r.uri.Path? && a.mount.Some? && a.mount.value <= |r.uri.path|
    && w.cached.Some? && w.cached.value.path == r.uri.path[..a.mount.value]
  }

  /** The checks of finding the factory of a path and of making a media; `waived` if the
      media is managed already. */
  function Making(c: Config, w: World, r: Request, a: Answers, mounted: bool, waived: bool): seq<Check> {
    var kept := waived || IsKept(w, r, a);
    [Check(waived || (c.mountPoints && a.mount.Some? && mounted), NOT_FOUND),
     Check(waived || LetIn(c, a), UNAUTHORIZED),
     Check(waived || c.auth.None? || a.access == OK, a.access),
     Check(waived || c.auth.None? || a.construct == OK, a.construct),
     Check(kept || a.constructed.Some?, BAD_REQUEST),
     Check(kept || a.records || a.thread, SERVICE_UNAVAILABLE),
     Check(kept || a.records || a.prepares, SERVICE_UNAVAILABLE)]
  }

  /** The path is that of a mount point, all of it. */
  predicate Whole(r: Request, a: Answers) {
    r.uri.Path? && a.mount == Some(|r.uri.path|)
  }

  function Describing(c: Config, w: World, r: Request, a: Answers): seq<Check> {
    [Check(r.uri.Path?, BAD_REQUEST), Check(a.preSignal == OK, a.preSignal),
     Check(c.mountPoints && a.makesPath, NOT_FOUND)]
    + Making(c, w, r, a, Whole(r, a), false)
    + [Check(a.plays, METHOD_NOT_ALLOWED), Check(a.sdp, SERVICE_UNAVAILABLE)]
  }

  function AnnouncingHead(c: Config, r: Request, a: Answers): seq<Check> {
    [Check(!r.version.Rtsp20?, BAD_REQUEST), Check(r.uri.Path?, BAD_REQUEST), Check(c.mountPoints, NOT_FOUND),
     Check(a.contentType && r.body && a.sdpParses, BAD_REQUEST), Check(a.makesPath, NOT_FOUND)]
  }

  function Announcing(c: Config, w: World, r: Request, a: Answers): seq<Check> {
    AnnouncingHead(c, r, a)
    + Making(c, w, r, a, Whole(r, a), false)
    + [Check(a.preSignal == OK, a.preSignal), Check(a.records, METHOD_NOT_ALLOWED),
       Check(a.sdpHandled, UNSUPPORTED_MEDIA_TYPE)]
  }

  /** The managed media, or else the mount point, matched the whole path of a SETUP. */
  predicate MatchedWhole(w: World, r: Request, a: Answers) {
    r.uri.Path? && if TargetOf(w, r).Some? then |Target(w, r).path| == |r.uri.path| else Whole(r, a)
  }

  /** A multicast SETUP names an address that the client may choose. */
  predicate Chooses(c: Config, r: Request, a: Answers) {
    r.multicast && r.destination && c.auth.Some? && LetIn(c, a) && a.clientSettings
  }

  function SettingUp(c: Config, w: World, r: Request, a: Answers): seq<Check> {
    SettingUpHead(c, r)
    + Making(c, w, r, a, true, TargetOf(w, r).Some?)
    + Streaming(w, r, a)
    + Transporting(c, w, r, a)
  }

  function SettingUpHead(c: Config, r: Request): seq<Check> {
    [Check(r.uri.Path?, BAD_REQUEST), Check(r.transport, UNSUPPORTED_TRANSPORT), Check(c.pool, SESSION_NOT_FOUND)]
  }

  function Streaming(w: World, r: Request, a: Answers): seq<Check> {
    [Check(if MatchedWhole(w, r, a) then a.oneStream else a.control, NOT_FOUND),
     Check(a.preSignal == OK, a.preSignal),
     Check(SessionOf(w, r).Some? || a.newSession.Some?, SERVICE_UNAVAILABLE)]
  }

  function Transporting(c: Config, w: World, r: Request, a: Answers): seq<Check> {
    [Check(a.blocksize, BAD_REQUEST), Check(a.transportKnown && a.modeFits, UNSUPPORTED_TRANSPORT),
     Check(a.keyManagement, KEY_MANAGEMENT_FAILURE), Check(a.rangeUnit, NOT_IMPLEMENTED),
     Check(TargetOf(w, r).Some? || a.manages, SERVICE_UNAVAILABLE),
     Check((Chooses(c, r, a) ==> a.ttl) && a.transportConfigured, UNSUPPORTED_TRANSPORT)]
  }

  /** The state and the pipeline of a media that is started. */
  function Starting(w: World, r: Request, a: Answers): seq<Check> {
    [Check(TargetOf(w, r).Some? && Target(w, r).state in {Ready, Playing}, METHOD_NOT_VALID_IN_THIS_STATE),
     Check(a.pipeline, METHOD_NOT_VALID_IN_THIS_STATE), Check(a.unsuspends, SERVICE_UNAVAILABLE)]
  }

  function PlayingIt(w: World, r: Request, a: Answers): seq<Check> {
    Covering(w, r)
    + [Check(a.preSignal == OK, a.preSignal), Check(a.plays, METHOD_NOT_ALLOWED)]
    + Starting(w, r, a)
    + [Check(a.playMode == OK, a.playMode), Check(a.rtpInfo && a.rates, INTERNAL_SERVER_ERROR),
       Check(a.playResponse == OK, a.playResponse)]
  }

  function RecordingIt(w: World, r: Request, a: Answers): seq<Check> {
    [Check(!r.version.Rtsp20?, BAD_REQUEST)]
    + Covering(w, r)
    + [Check(a.preSignal == OK, a.preSignal), Check(a.records, METHOD_NOT_ALLOWED)]
    + Starting(w, r, a)
  }

  function Pausing(w: World, r: Request, a: Answers): seq<Check> {
    Covering(w, r)
    + [Check(a.pausable, BAD_REQUEST), Check(a.preSignal == OK, a.preSignal),
       Check(TargetOf(w, r).Some? && Target(w, r).state in {Playing, Recording}, METHOD_NOT_VALID_IN_THIS_STATE)]
  }

  function Parameters(r: Request, a: Answers): seq<Check> {
    [Check(a.preSignal == OK, a.preSignal), Check(a.bodyReads, BAD_REQUEST),
     Check(!r.body, PARAMETER_NOT_UNDERSTOOD), Check(!(r.verb.GetParameter? && r.version.Rtsp20?), BAD_REQUEST)]
  }

  /** The checks of the handler of each method. */
  function Handling(c: Config, w: World, r: Request, a: Answers): seq<Check> {
    match r.verb
    case Options => [Check(a.preSignal == OK, a.preSignal)]
    case Describe => Describing(c, w, r, a)
    case Setup => SettingUp(c, w, r, a)
    case Play => PlayingIt(w, r, a)
    case Pause => Pausing(w, r, a)
    case Teardown => Covering(w, r) + [Check(a.preSignal == OK, a.preSignal)]
    case SetParameter => Parameters(r, a)
    case GetParameter => Parameters(r, a)
    case Announce => Announcing(c, w, r, a)
    case Record => RecordingIt(w, r, a)
    case Redirect => [Check(false, NOT_IMPLEMENTED)]
    case Invalid => [Check(false, BAD_REQUEST)]
  }

  function Checks(c: Config, w: World, r: Request, a: Answers): seq<Check> {
    Arrival(c, w, r, a) + Handling(c, w, r, a)
  }

  // -------------------------------------------------- each row of checks and its answer

  /** A row decides a status, which is OK only if all of it holds. */
  ghost predicate Settle(cs: seq<Check>, st: Status) {
    Decide(cs, st) && (AllHold(cs) <==> st == OK)
  }

  /** Two rows one after the other: the second one counts if the first one holds. */
  lemma SettleConcat(cs: seq<Check>, more: seq<Check>, st: Status, first: Status)
    requires Settle(cs, first)
    requires if first == OK then Settle(more, st) else st == first
    ensures Settle(cs + more, st)
  {
    DecideConcat(cs, more, st);
    var all := cs + more;
    if AllHold(all) {
      forall k | 0 <= k < |cs| ensures cs[k].holds {
        assert all[k].holds;
      }
      forall k | 0 <= k < |more| ensures more[k].holds {
        assert all[|cs| + k].holds;
      }
    }
  }

  lemma ArrivalDecides(c: Config, w: World, r: Request, a: Answers)
    ensures Settle(Arrival(c, w, r, a), Prelude(c, w, r, a))
  {
    var cs := Arrival(c, w, r, a);
    var k := if !cs[0].holds then 0 else if !cs[1].holds then 1 else if !cs[2].holds then 2
             else if !cs[3].holds then 3 else 4;
    assert FailsFirst(cs, k) || AllHold(cs);
  }

  lemma ManagedDecides(w: World, r: Request)
    ensures Settle(Covering(w, r), Aggregate(w, r))
  {
    var cs := Covering(w, r);
    var k := if !cs[0].holds then 0 else if !cs[1].holds then 1 else if !cs[2].holds then 2 else 3;
    assert FailsFirst(cs, k) || AllHold(cs);
  }

  /** The status that finding and making a media leads to, if it is not managed already. */
  lemma MakingDecides(c: Config, w: World, r: Request, a: Answers, prefix: bool)
    requires r.uri.Path? && MountOk(a.mount, r.uri.path)
    ensures Settle(Making(c, w, r, a, prefix || Whole(r, a), false), FindAnswer(c, w.cached, r.uri.path, prefix, a))
  {
    var cs := Making(c, w, r, a, prefix || Whole(r, a), false);
    var k := if !cs[0].holds then 0 else if !cs[1].holds then 1 else if !cs[2].holds then 2
             else if !cs[3].holds then 3 else if !cs[4].holds then 4 else if !cs[5].holds then 5 else 6;
    assert FailsFirst(cs, k) || AllHold(cs);
  }

  lemma WaivedHolds(c: Config, w: World, r: Request, a: Answers)
    ensures AllHold(Making(c, w, r, a, true, true))
  {
  }

  /** A row of one, two or three checks by itself. */
  lemma ShortRow(cs: seq<Check>, st: Status)
    requires |cs| <= 3
    requires st == if |cs| > 0 && !cs[0].holds then cs[0].otherwise
                   else if |cs| > 1 && !cs[1].holds then cs[1].otherwise
                   else if |cs| > 2 && !cs[2].holds then cs[2].otherwise else OK
    requires forall k :: 0 <= k < |cs| && !cs[k].holds ==> cs[k].otherwise != OK
    ensures Settle(cs, st)
  {
    var k := if |cs| > 0 && !cs[0].holds then 0 else if |cs| > 1 && !cs[1].holds then 1 else 2;
    assert FailsFirst(cs, k) || AllHold(cs);
  }

  /** What a short row decides. */
  function FirstOfThree(cs: seq<Check>): Status {
    if |cs| > 0 && !cs[0].holds then cs[0].otherwise
    else if |cs| > 1 && !cs[1].holds then cs[1].otherwise
    else if |cs| > 2 && !cs[2].holds then cs[2].otherwise else OK
  }

  lemma DescribeDecides(c: Config, w: World, r: Request, a: Answers)
    requires AnswersOk(w, r, a)
    ensures Settle(Describing(c, w, r, a), DescribeAnswer(c, w, r, a))
  {
    var head := [Check(r.uri.Path?, BAD_REQUEST), Check(a.preSignal == OK, a.preSignal),
                 Check(c.mountPoints && a.makesPath, NOT_FOUND)];
    var making := Making(c, w, r, a, Whole(r, a), false);
    var tail := [Check(a.plays, METHOD_NOT_ALLOWED), Check(a.sdp, SERVICE_UNAVAILABLE)];
    var first := FirstOfThree(head);
    ShortRow(head, first);
    ShortRow(tail, FirstOfThree(tail));
    var made := first;
    if first == OK {
      MakingDecides(c, w, r, a, false);
      made := FindAnswer(c, w.cached, r.uri.path, false, a);
    }
    SettleConcat(head, making, made, first);
    SettleConcat(head + making, tail, DescribeAnswer(c, w, r, a), made);
  }

  lemma AnnounceDecides(c: Config, w: World, r: Request, a: Answers)
    requires AnswersOk(w, r, a) && r.verb.Announce?
    ensures Settle(Announcing(c, w, r, a), HandlerAnswer(c, w, r, a))
  {
    var head := AnnouncingHead(c, r, a);
    var making := Making(c, w, r, a, Whole(r, a), false);
    var tail := [Check(a.preSignal == OK, a.preSignal), Check(a.records, METHOD_NOT_ALLOWED),
                 Check(a.sdpHandled, UNSUPPORTED_MEDIA_TYPE)];
    var k := if !head[0].holds then 0 else if !head[1].holds then 1 else if !head[2].holds then 2
             else if !head[3].holds then 3 else 4;
    assert FailsFirst(head, k) || AllHold(head);
    var first := if AllHold(head) then OK else head[k].otherwise;
    ShortRow(tail, FirstOfThree(tail));
    var made := first;
    if first == OK {
      MakingDecides(c, w, r, a, false);
      made := FindAnswer(c, w.cached, r.uri.path, false, a);
    }
    SettleConcat(head, making, made, first);
    SettleConcat(head + making, tail, HandlerAnswer(c, w, r, a), made);
  }

  lemma TransportDecides(c: Config, w: World, r: Request, a: Answers)
    ensures Settle(Transporting(c, w, r, a),
                   if SetupRest(TargetOf(w, r).Some?, a) != OK then SetupRest(TargetOf(w, r).Some?, a)
                   else if !TransportOk(c, r, a) then UNSUPPORTED_TRANSPORT else OK)
  {
    var cs := Transporting(c, w, r, a);
    var k := if !cs[0].holds then 0 else if !cs[1].holds then 1 else if !cs[2].holds then 2
             else if !cs[3].holds then 3 else if !cs[4].holds then 4 else 5;
    assert FailsFirst(cs, k) || AllHold(cs);
  }

  /** SETUP up to the media and its stream. */
  lemma SetupHeadDecides(c: Config, w: World, r: Request, a: Answers)
    requires AnswersOk(w, r, a)
    ensures Settle(SettingUpHead(c, r) + Making(c, w, r, a, true, TargetOf(w, r).Some?),
                   if SetupHead(c, r) != OK then SetupHead(c, r)
                   else if TargetOf(w, r).Some? then OK else FindAnswer(c, w.cached, r.uri.path, true, a))
  {
    var head := SettingUpHead(c, r);
    var making := Making(c, w, r, a, true, TargetOf(w, r).Some?);
    ShortRow(head, SetupHead(c, r));
    var made := SetupHead(c, r);
    if SetupHead(c, r) == OK {
      if TargetOf(w, r).Some? {
        WaivedHolds(c, w, r, a);
        made := OK;
      } else {
        MakingDecides(c, w, r, a, true);
        made := FindAnswer(c, w.cached, r.uri.path, true, a);
      }
    }
    SettleConcat(head, making, made, SetupHead(c, r));
  }

  lemma SetupDecides(c: Config, w: World, r: Request, a: Answers)
    requires AnswersOk(w, r, a) && r.verb.Setup?
    ensures Settle(SettingUp(c, w, r, a), HandlerAnswer(c, w, r, a))
  {
    var head := SettingUpHead(c, r) + Making(c, w, r, a, true, TargetOf(w, r).Some?);
    var stream := Streaming(w, r, a);
    var made := if SetupHead(c, r) != OK then SetupHead(c, r)
                else if TargetOf(w, r).Some? then OK else FindAnswer(c, w.cached, r.uri.path, true, a);
    SetupHeadDecides(c, w, r, a);
    ShortRow(stream, FirstOfThree(stream));
    var found := if made != OK then made else FirstOfThree(stream);
    SettleConcat(head, stream, found, made);
    TransportDecides(c, w, r, a);
    SettleConcat(head + stream, Transporting(c, w, r, a), HandlerAnswer(c, w, r, a), found);
  }

  lemma PlayDecides(c: Config, w: World, r: Request, a: Answers)
    ensures Settle(PlayingIt(w, r, a), PlayAnswer(w, r, a))
  {
    var allowed := [Check(a.preSignal == OK, a.preSignal), Check(a.plays, METHOD_NOT_ALLOWED)];
    var tail := [Check(a.playMode == OK, a.playMode), Check(a.rtpInfo && a.rates, INTERNAL_SERVER_ERROR),
                 Check(a.playResponse == OK, a.playResponse)];
    var s0 := Aggregate(w, r);
    ManagedDecides(w, r);
    ShortRow(allowed, FirstOfThree(allowed));
    var s1 := if s0 != OK then s0 else FirstOfThree(allowed);
    SettleConcat(Covering(w, r), allowed, s1, s0);
    ShortRow(Starting(w, r, a), FirstOfThree(Starting(w, r, a)));
    var s2 := if s1 != OK then s1 else FirstOfThree(Starting(w, r, a));
    SettleConcat(Covering(w, r) + allowed, Starting(w, r, a), s2, s1);
    ShortRow(tail, FirstOfThree(tail));
    SettleConcat(Covering(w, r) + allowed + Starting(w, r, a), tail, PlayAnswer(w, r, a), s2);
  }

  lemma RecordDecides(c: Config, w: World, r: Request, a: Answers)
    requires AnswersOk(w, r, a) && r.verb.Record?
    ensures Settle(RecordingIt(w, r, a), HandlerAnswer(c, w, r, a))
  {
    var head := [Check(!r.version.Rtsp20?, BAD_REQUEST)];
    var allowed := [Check(a.preSignal == OK, a.preSignal), Check(a.records, METHOD_NOT_ALLOWED)];
    ShortRow(head, FirstOfThree(head));
    ManagedDecides(w, r);
    var s0 := if FirstOfThree(head) != OK then FirstOfThree(head) else Aggregate(w, r);
    SettleConcat(head, Covering(w, r), s0, FirstOfThree(head));
    ShortRow(allowed, FirstOfThree(allowed));
    var s1 := if s0 != OK then s0 else FirstOfThree(allowed);
    SettleConcat(head + Covering(w, r), allowed, s1, s0);
    ShortRow(Starting(w, r, a), FirstOfThree(Starting(w, r, a)));
    SettleConcat(head + Covering(w, r) + allowed, Starting(w, r, a), HandlerAnswer(c, w, r, a), s1);
  }

  lemma PauseDecides(w: World, r: Request, a: Answers)
    ensures Settle(Pausing(w, r, a), PauseAnswer(w, r, a))
  {
    var tail := [Check(a.pausable, BAD_REQUEST), Check(a.preSignal == OK, a.preSignal),
                 Check(TargetOf(w, r).Some? && Target(w, r).state in {Playing, Recording},
                       METHOD_NOT_VALID_IN_THIS_STATE)];
    ManagedDecides(w, r);
    ShortRow(tail, FirstOfThree(tail));
    SettleConcat(Covering(w, r), tail, PauseAnswer(w, r, a), Aggregate(w, r));
  }

  lemma TeardownDecides(w: World, r: Request, a: Answers)
    ensures Settle(Covering(w, r) + [Check(a.preSignal == OK, a.preSignal)], TeardownAnswer(w, r, a))
  {
    var tail := [Check(a.preSignal == OK, a.preSignal)];
    ManagedDecides(w, r);
    ShortRow(tail, FirstOfThree(tail));
    SettleConcat(Covering(w, r), tail, TeardownAnswer(w, r, a), Aggregate(w, r));
  }

  lemma ParametersDecide(r: Request, a: Answers)
    ensures Settle(Parameters(r, a), ParameterAnswer(r, a))
  {
    var cs := Parameters(r, a);
    var k := if !cs[0].holds then 0 else if !cs[1].holds then 1 else if !cs[2].holds then 2 else 3;
    assert FailsFirst(cs, k) || AllHold(cs);
  }

  lemma HandlerDecides(c: Config, w: World, r: Request, a: Answers)
    requires AnswersOk(w, r, a)
    ensures Settle(Handling(c, w, r, a), HandlerAnswer(c, w, r, a))
  {
    match r.verb
    case Describe => DescribeDecides(c, w, r, a);
    case Announce => AnnounceDecides(c, w, r, a);
    case Setup => SetupDecides(c, w, r, a);
    case Play => PlayDecides(c, w, r, a);
    case Record => RecordDecides(c, w, r, a);
    case Pause => PauseDecides(w, r, a);
    case Teardown => TeardownDecides(w, r, a);
    case SetParameter => ParametersDecide(r, a);
    case GetParameter => ParametersDecide(r, a);
    case _ => ShortRow(Handling(c, w, r, a), HandlerAnswer(c, w, r, a));
  }

  // --------------------------------------------------------------- what that means

  /** Every request is answered by the first of its checks that does not hold, and accepted
      exactly if all hold. */
  lemma ChecksDecide(c: Config, w: World, r: Request, a: Answers)
    requires AnswersOk(w, r, a)
    ensures Decide(Checks(c, w, r, a), Answer(c, w, r, a))
    ensures Answer(c, w, r, a) == OK <==> AllHold(Checks(c, w, r, a))
  {
    ArrivalDecides(c, w, r, a);
    HandlerDecides(c, w, r, a);
    SettleConcat(Arrival(c, w, r, a), Handling(c, w, r, a), Answer(c, w, r, a), Prelude(c, w, r, a));
  }

  /** An objection that comes alone is answered with its status, and changes no session, unless
      it is one to the transport of a new media. */
  lemma SingleObjection(c: Config, w: World, r: Request, a: Answers, k: nat)
    requires AnswersOk(w, r, a) && Invariant(w) && k < |Checks(c, w, r, a)|
    requires forall j :: 0 <= j < |Checks(c, w, r, a)| ==> (Checks(c, w, r, a)[j].holds <==> j != k)
    ensures Answer(c, w, r, a) == Checks(c, w, r, a)[k].otherwise
    ensures After(c, w, r, a).sessions == w.sessions <==> !RefusedLate(c, w, r, a)
  {
    var cs := Checks(c, w, r, a);
    ChecksDecide(c, w, r, a);
    assert FailsFirst(cs, k);
    DecideOnce(cs, Answer(c, w, r, a), cs[k].otherwise);
    RefusedChangesNothing(c, w, r, a);
  }

  // ---------------------------------------------- when a request is accepted, in plain facts

  /** The request is readable, its session exists, the method needs no more authentication, and
      all that it requires is supported. */
  predicate ComesIn(c: Config, w: World, r: Request, a: Answers) {
    && !r.version.OtherVersion? && !r.uri.Unparsable?
    && (Named(w, r).Some? ==> c.pool && Named(w, r).value in w.sessions)
    && (c.auth.Some? && r.verb in c.auth.value.methods ==> LetIn(c, a))
    && a.requirements
  }

  /** The path is mounted, the client may see and build what is there, and the media is at hand
      or can be made and prepared. */
  predicate MediaAtHand(c: Config, w: World, r: Request, a: Answers) {
    && c.mountPoints && a.mount.Some? && LetIn(c, a)
    && (c.auth.Some? ==> a.access == OK && a.construct == OK)
    && (IsKept(w, r, a) || (a.constructed.Some? && (a.records || (a.thread && a.prepares))))
  }

  /** DESCRIBE is accepted exactly for a media at hand, mounted at the whole path, that plays and
      has an SDP. */
  lemma DescribeAccepted(c: Config, w: World, r: Request, a: Answers)
    requires AnswersOk(w, r, a) && r.verb.Describe?
    ensures Answer(c, w, r, a) == OK <==>
              && ComesIn(c, w, r, a) && r.uri.Path? && a.preSignal == OK && a.makesPath
              && MediaAtHand(c, w, r, a) && a.mount.value == |r.uri.path|
              && a.plays && a.sdp
  {
  }

  /** ANNOUNCE is accepted exactly before RTSP 2.0, with an SDP that is understood, for a media at
      hand, mounted at the whole path, that records. */
  lemma AnnounceAccepted(c: Config, w: World, r: Request, a: Answers)
    requires AnswersOk(w, r, a) && r.verb.Announce?
    ensures Answer(c, w, r, a) == OK <==>
              && ComesIn(c, w, r, a) && !r.version.Rtsp20? && r.uri.Path? && a.preSignal == OK
              && a.contentType && r.body && a.sdpParses && a.sdpHandled && a.makesPath
              && MediaAtHand(c, w, r, a) && a.mount.value == |r.uri.path|
              && a.records
  {
  }

  /** A SETUP gets to its transport: it is for a stream of a media that is managed already or at
      hand, in a session that exists or can be made, and asks for what is known. */
  predicate ReachesTransport(c: Config, w: World, r: Request, a: Answers) {
    && ComesIn(c, w, r, a) && r.uri.Path? && a.preSignal == OK && c.pool
    && (TargetOf(w, r).Some? || (MediaAtHand(c, w, r, a) && a.manages))
    && (if MatchedWhole(w, r, a) then a.oneStream else a.control)
    && (SessionOf(w, r).Some? || a.newSession.Some?)
    && r.transport && a.blocksize && a.transportKnown && a.modeFits && a.keyManagement && a.rangeUnit
  }

  /** SETUP is accepted exactly if its transport can be configured then, with a ttl if the client
      chooses the address; and that is the only thing that a late refusal can be about. */
  lemma SetupAccepted(c: Config, w: World, r: Request, a: Answers)
    requires AnswersOk(w, r, a) && r.verb.Setup?
    ensures Answer(c, w, r, a) == OK <==>
              ReachesTransport(c, w, r, a) && (Chooses(c, r, a) ==> a.ttl) && a.transportConfigured
    ensures RefusedLate(c, w, r, a) <==>
              && ReachesTransport(c, w, r, a) && Answer(c, w, r, a) != OK
              && SessionOf(w, r).Some? && TargetOf(w, r).None?
  {
  }

  /** The media that the path is managed under is started, paused or taken down. */
  predicate IsManaged(w: World, r: Request) {
    TargetOf(w, r).Some? && |Target(w, r).path| == |r.uri.path|
  }

  /** PLAY, RECORD, PAUSE and TEARDOWN are accepted exactly for a media managed under the whole
      path, in the right state, if nothing outside objects. */
  lemma ManagedAccepted(c: Config, w: World, r: Request, a: Answers)
    requires AnswersOk(w, r, a) && r.verb in {Play, Record, Pause, Teardown}
    ensures Answer(c, w, r, a) == OK <==>
              && ComesIn(c, w, r, a) && IsManaged(w, r) && a.preSignal == OK
              && (r.verb in {Play, Record} ==> Target(w, r).state in {Ready, Playing} && a.pipeline && a.unsuspends)
              && (r.verb.Play? ==>
                    a.plays && a.playMode == OK && a.rtpInfo && a.rates && a.playResponse == OK)
              && (r.verb.Record? ==> a.records && !r.version.Rtsp20?)
              && (r.verb.Pause? ==> a.pausable && Target(w, r).state in {Playing, Recording})
  {
  }

  /** The request is about a media that is found by its path, not by its session. */
  predicate Searches(w: World, r: Request) {
    r.verb in {Describe, Announce} || (r.verb.Setup? && TargetOf(w, r).None?)
  }

  /** The permissions of the factory decide: a request that would be accepted, but for a refusal
      to see or to build what is there, gets the status of that refusal and changes nothing. */
  lemma PermissionsRefuse(c: Config, w: World, r: Request, a: Answers, b: Answers)
    requires AnswersOk(w, r, a) && Answer(c, w, r, a) == OK && Searches(w, r) && c.auth.Some?
    requires b == a.(access := b.access, construct := b.construct) && (b.access != OK || b.construct != OK)
    ensures Replies(c, w, r, b) == [if b.access != OK then b.access else b.construct]
    ensures After(c, w, r, b) == w
  {
    match r.verb
    case Setup =>
      SetupAccepted(c, w, r, a);
      SearchRefused(c, w, r, b, true);
    case Describe =>
      DescribeAccepted(c, w, r, a);
      DescribeRefused(c, w, r, b);
    case _ =>
      AnnounceAccepted(c, w, r, a);
      AnnounceRefused(c, w, r, b);
  }

  /** The search itself, for a client that is let in. */
  lemma SearchRefused(c: Config, w: World, r: Request, b: Answers, prefix: bool)
    requires AnswersOk(w, r, b) && r.uri.Path? && c.auth.Some? && (b.access != OK || b.construct != OK)
    requires c.mountPoints && b.mount.Some? && (prefix || b.mount.value == |r.uri.path|) && LetIn(c, b)
    ensures FindAnswer(c, w.cached, r.uri.path, prefix, b) == if b.access != OK then b.access else b.construct
    ensures CacheAfter(c, w.cached, r.uri.path, prefix, b) == w.cached
  {
  }

  lemma DescribeRefused(c: Config, w: World, r: Request, b: Answers)
    requires AnswersOk(w, r, b) && r.verb.Describe? && c.auth.Some? && (b.access != OK || b.construct != OK)
    requires ComesIn(c, w, r, b) && r.uri.Path? && b.preSignal == OK && b.makesPath
    requires c.mountPoints && b.mount == Some(|r.uri.path|) && LetIn(c, b)
    ensures Replies(c, w, r, b) == [if b.access != OK then b.access else b.construct] && After(c, w, r, b) == w
  {
    SearchRefused(c, w, r, b, false);
  }

  lemma AnnounceRefused(c: Config, w: World, r: Request, b: Answers)
    requires AnswersOk(w, r, b) && r.verb.Announce? && c.auth.Some? && (b.access != OK || b.construct != OK)
    requires ComesIn(c, w, r, b) && !r.version.Rtsp20? && r.uri.Path? && b.makesPath
    requires b.contentType && r.body && b.sdpParses && c.mountPoints && b.mount == Some(|r.uri.path|) && LetIn(c, b)
    ensures Replies(c, w, r, b) == [if b.access != OK then b.access else b.construct] && After(c, w, r, b) == w
  {
    SearchRefused(c, w, r, b, false);
  }

  // ------------------------------------------------------ what an accepted request leaves

  /** The media that a path leads to: the one that is kept, or else a new one. */
  function MediaOf(w: World, r: Request, a: Answers): Option<Media> {
    if IsKept(w, r, a) then Some(w.cached.value.media) else a.constructed
  }

  /** After an accepted DESCRIBE or ANNOUNCE the client keeps the media under its path. */
  lemma DescribedIsKept(c: Config, w: World, r: Request, a: Answers)
    requires AnswersOk(w, r, a) && r.verb in {Describe, Announce} && Answer(c, w, r, a) == OK
    ensures MediaOf(w, r, a).Some?
    ensures After(c, w, r, a) == w.(cached := Some(Cached(r.uri.path, MediaOf(w, r, a).value)))
  {
    assert r.uri.path[..|r.uri.path|] == r.uri.path;
  }

  /** The search for the media of a path gets as far as making one. */
  predicate Makes(c: Config, w: World, r: Request, a: Answers) {
    && ComesIn(c, w, r, a) && r.uri.Path? && Searches(w, r) && !IsKept(w, r, a)
    && c.mountPoints && a.mount.Some? && LetIn(c, a) && (c.auth.Some? ==> a.access == OK && a.construct == OK)
    && match r.verb
       case Describe => a.preSignal == OK && a.makesPath && a.mount.value == |r.uri.path|
       case Announce =>
         !r.version.Rtsp20? && a.contentType && r.body && a.sdpParses && a.makesPath && a.mount.value == |r.uri.path|
       case _ => r.transport && c.pool
  }

  /** What is kept after a media was asked for: the new one, nothing if there is none. */
  function Made(r: Request, a: Answers): Option<Cached>
    requires r.uri.Path? && a.mount.Some? && a.mount.value <= |r.uri.path|
  {
    if a.constructed.Some? && (a.records || (a.thread && a.prepares))
    then Some(Cached(r.uri.path[..a.mount.value], a.constructed.value)) else None
  }

  /** What a client keeps changes exactly when a media is asked for, whatever comes of the request;
      and a SETUP gives away what it manages. */
  lemma KeptChanges(c: Config, w: World, r: Request, a: Answers)
    requires AnswersOk(w, r, a)
    ensures After(c, w, r, a).cached
         == if r.verb.Setup? && ReachesTransport(c, w, r, a) && TargetOf(w, r).None? then None
            else if Makes(c, w, r, a) then Made(r, a) else w.cached
  {
    match r.verb
    case Setup => SetupKeeps(c, w, r, a);
    case Describe => DescribeKeeps(c, w, r, a);
    case Announce => AnnounceKeeps(c, w, r, a);
    case _ =>
  }

  lemma SearchKeeps(c: Config, w: World, r: Request, a: Answers, prefix: bool)
    requires AnswersOk(w, r, a) && r.uri.Path? && c.mountPoints
    ensures CacheAfter(c, w.cached, r.uri.path, prefix, a)
         == if && !IsKept(w, r, a) && a.mount.Some? && (prefix || a.mount.value == |r.uri.path|)
               && LetIn(c, a) && (c.auth.Some? ==> a.access == OK && a.construct == OK)
            then Made(r, a) else w.cached
  {
  }

  lemma SetupKeeps(c: Config, w: World, r: Request, a: Answers)
    requires AnswersOk(w, r, a) && r.verb.Setup?
    ensures After(c, w, r, a).cached
         == if ReachesTransport(c, w, r, a) && TargetOf(w, r).None? then None
            else if Makes(c, w, r, a) then Made(r, a) else w.cached
  {
    if TargetOf(w, r).Some? {
      KeptIfManaged(c, w, r, a);
    } else if r.uri.Path? {
      SetupSearches(c, w, r, a);
    }
  }

  lemma KeptIfManaged(c: Config, w: World, r: Request, a: Answers)
    requires AnswersOk(w, r, a) && r.verb.Setup? && TargetOf(w, r).Some?
    ensures After(c, w, r, a).cached == w.cached
  {
  }

  /** A SETUP of a media that is not managed: what is kept is what the search leaves, until the
      media is managed. */
  lemma SetupSearches(c: Config, w: World, r: Request, a: Answers)
    requires AnswersOk(w, r, a) && r.verb.Setup? && r.uri.Path? && TargetOf(w, r).None?
    ensures After(c, w, r, a).cached
         == if ReachesTransport(c, w, r, a) then None else if Makes(c, w, r, a) then Made(r, a) else w.cached
  {
    SetupAccepted(c, w, r, a);
    if c.mountPoints {
      SearchKeeps(c, w, r, a, true);
    }
    if Prelude(c, w, r, a) == OK {
      if SetupBeforeTransport(c, w, r, a) == OK {
        ManagedIsNotKept(c, w, r, a);
      } else {
        StoppedSetupKeeps(c, w, r, a);
      }
    }
  }

  lemma ManagedIsNotKept(c: Config, w: World, r: Request, a: Answers)
    requires AnswersOk(w, r, a) && r.verb.Setup? && TargetOf(w, r).None?
    requires Prelude(c, w, r, a) == OK && SetupBeforeTransport(c, w, r, a) == OK
    ensures ReachesTransport(c, w, r, a) && After(c, w, r, a).cached == None
  {
  }

  lemma StoppedSetupKeeps(c: Config, w: World, r: Request, a: Answers)
    requires AnswersOk(w, r, a) && r.verb.Setup? && r.uri.Path? && TargetOf(w, r).None?
    requires Prelude(c, w, r, a) == OK && SetupBeforeTransport(c, w, r, a) != OK
    ensures !ReachesTransport(c, w, r, a)
    ensures After(c, w, r, a).cached
         == if r.transport && c.pool then CacheAfter(c, w.cached, r.uri.path, true, a) else w.cached
  {
  }

  lemma DescribeKeeps(c: Config, w: World, r: Request, a: Answers)
    requires AnswersOk(w, r, a) && r.verb.Describe?
    ensures After(c, w, r, a).cached == if Makes(c, w, r, a) then Made(r, a) else w.cached
  {
    if r.uri.Path? && c.mountPoints {
      SearchKeeps(c, w, r, a, false);
    }
  }

  lemma AnnounceKeeps(c: Config, w: World, r: Request, a: Answers)
    requires AnswersOk(w, r, a) && r.verb.Announce?
    ensures After(c, w, r, a).cached == if Makes(c, w, r, a) then Made(r, a) else w.cached
  {
    if r.uri.Path? && c.mountPoints {
      SearchKeeps(c, w, r, a, false);
    }
  }

  /**
   After an accepted SETUP of a media that is not managed yet, its session manages exactly that
   media first, ready to play, under the path that is mounted; the client keeps it no longer.
   */
  lemma SetupManages(c: Config, w: World, r: Request, a: Answers)
    requires AnswersOk(w, r, a) && r.verb.Setup? && Answer(c, w, r, a) == OK && TargetOf(w, r).None?
    ensures var v, s := After(c, w, r, a), SessionFor(SessionOf(w, r), a);
            && MediaOf(w, r, a).Some? && a.mount.Some? && v.cached == None
            && v.sessions == w.sessions[s := [Managed(r.uri.path[..a.mount.value], MediaOf(w, r, a).value, Ready)]
                                             + if s in w.sessions then w.sessions[s] else []]
  {
    var media := SetupOfNew(c, w, r, a);
  }

  /** After an accepted SETUP with a pipelined id, requests with that id, and no session of their
      own, belong to the session of the SETUP; a new session forgets all other ids. */
  lemma PipelinedFollow(c: Config, w: World, r: Request, a: Answers, next: Request)
    requires AnswersOk(w, r, a) && r.verb.Setup? && Answer(c, w, r, a) == OK
    ensures var v, s := After(c, w, r, a), SessionFor(SessionOf(w, r), a);
            && (r.version.Rtsp20? && r.pipelined.Some? && next.pipelined == r.pipelined ==>
                  SessionOf(v, next) == Some(s))
            && (next.pipelined.Some? && next.pipelined != r.pipelined && next.session.None? ==>
                  SessionOf(v, next) == if SessionOf(w, r).None? then None else SessionOf(w, next))
  {
    if TargetOf(w, r).Some? {
      SetupOfManaged(c, w, r, a);
    } else {
      var media := SetupOfNew(c, w, r, a);
    }
  }

  // ---------------------------------------------------------------- what a path covers

  /** A managed path covers itself, what lies below it behind a slash, and, if it is a single
      slash, every absolute path; and nothing else. */
  lemma CoversBelow(managed: string, path: string)
    requires path != ""
    ensures Matches(managed, path) <==>
              managed == path || managed + "/" <= path || (managed == "/" && path[0] == '/')
  {
    if managed + "/" <= path {
      assert (managed + "/")[|managed|] == path[|managed|] == '/';
      assert path[..|managed|] == managed;
    }
    if Matches(managed, path) && managed != path && managed != "/" {
      if |managed| == |path| {
        FullMatchIsEqual(managed, path);
      }
      assert managed + "/" == path[..|managed| + 1];
    }
  }

  /** A path does not cover a longer name that begins like it. */
  lemma PrefixIsNotEnough()
    ensures Matches("/live", "/live") && Matches("/live", "/live/stream=0") && !Matches("/live", "/live2")
  {
    assert "/live2"[5] == '2';
    assert "/live/stream=0"[5] == '/' && "/live/stream=0"[..5] == "/live";
  }
}
