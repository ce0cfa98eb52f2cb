/**
 The list of sessions that a client watches, and the filter that walks it while its
 callback is free to change it: `client_watch_session`, `client_unwatch_session` and
 `gst_rtsp_client_session_filter`.
 */
module SessionFilters {
  import opened Basics

  /** A session is known by its identity only. */
  type Session = nat

  datatype Answer = REMOVE | KEEP | REF

  /** What a callback (or another thread, while the lock is released) may do to the list. */
  datatype Change = Watch(s: Session) | Unwatch(s: Session)

  datatype Reaction = Reaction(changes: seq<Change>, answer: Answer)

  /** A callback: what happens when it is called on a session, given the sessions it was
      called on before. Depending on the whole history makes this any callback. */
  type Callback = (seq<Session>, Session) -> Reaction

  // ---------------------------------------------------------- the list, as a value

  function Find(ss: seq<Session>, s: Session): (i: nat)
    ensures i <= |ss|
    ensures i < |ss| ==> ss[i] == s
    ensures forall j :: 0 <= j < i ==> ss[j] != s
  {
    if ss == [] then 0 else if ss[0] == s then 0 else 1 + Find(ss[1..], s)
  }

  function RemoveAt(ss: seq<Session>, i: nat): seq<Session>
    requires i < |ss|
  {
    ss[..i] + ss[i + 1..]
  }

  function Watched(ss: seq<Session>, s: Session): seq<Session> {
    if s in ss then ss else [s] + ss
  }

  function Unwatched(ss: seq<Session>, s: Session): seq<Session> {
    if s in ss then RemoveAt(ss, Find(ss, s)) else ss
  }

  /** Exactly one place of the session goes, and all others keep their order. */
  lemma UnwatchTakesOne(ss: seq<Session>, s: Session)
    ensures s !in ss ==> Unwatched(ss, s) == ss
    ensures s in ss ==> exists i :: 0 <= i < |ss| && ss[i] == s && Unwatched(ss, s) == ss[..i] + ss[i + 1..]
  {
    if s in ss {
      assert ss[Find(ss, s)] == s;
    }
  }

  function Changed(ss: seq<Session>, changes: seq<Change>): seq<Session>
    decreases |changes|
  {
    if changes == [] then ss
    else match changes[0]
      case Watch(s) => Changed(Watched(ss, s), changes[1..])
      case Unwatch(s) => Changed(Unwatched(ss, s), changes[1..])
  }

  /** The list after one visit: the changes of the callback, and the unwatch that a
      REMOVE answer asks for. */
  ghost function AfterVisit(func: Callback, done: seq<Session>, ss: seq<Session>, s: Session): seq<Session> {
    var r := func(done, s);
    var changed := Changed(ss, r.changes);
    if r.answer == REMOVE then Unwatched(changed, s) else changed
  }

  /** The list after the callback was called on `visits`, in this order, starting from
      `ss`. */
  ghost function After(func: Callback, ss: seq<Session>, visits: seq<Session>): seq<Session> {
    if visits == [] then ss
    else
      var done, s := visits[..|visits| - 1], visits[|visits| - 1];
      AfterVisit(func, done, After(func, ss, done), s)
  }

  /** The visited sessions that were answered REF, latest first. */
  ghost function Referenced(func: Callback, visits: seq<Session>): (r: seq<Session>)
    ensures forall s :: s in r ==> s in visits
  {
    if visits == [] then []
    else
      var done, s := visits[..|visits| - 1], visits[|visits| - 1];
      (if func(done, s).answer == REF then [s] else []) + Referenced(func, done)
  }

  /** The sessions that a run can ever meet: those in `known`. */
  ghost predicate StaysWithin(func: Callback, known: set<Session>) {
    forall h, s, c: Change :: s in known && c in func(h, s).changes && c.Watch? ==> c.s in known
  }

  // --------------------------------------------------- what is listed, from the history

  /** The last of the changes that is about a session: whether it watches it, if any is. */
  function LastChange(changes: seq<Change>, s: Session): Option<bool>
    decreases |changes|
  {
    if changes == [] then None
    else if changes[|changes| - 1].s == s then Some(changes[|changes| - 1].Watch?)
    else LastChange(changes[..|changes| - 1], s)
  }

  /** All changes of some visits in order, with the unwatch that a REMOVE answer asks for. */
  ghost function History(func: Callback, visits: seq<Session>): seq<Change> {
    if visits == [] then []
    else
      var done, s := visits[..|visits| - 1], visits[|visits| - 1];
      var r := func(done, s);
      History(func, done) + r.changes + if r.answer == REMOVE then [Unwatch(s)] else []
  }

  lemma {:induction false} ChangedConcat(ss: seq<Session>, a: seq<Change>, b: seq<Change>)
    ensures Changed(ss, a + b) == Changed(Changed(ss, a), b)
    decreases |a|
  {
    if a == [] {
      assert a + b == b;
    } else {
      assert (a + b)[1..] == a[1..] + b;
      match a[0]
      case Watch(s) => ChangedConcat(Watched(ss, s), a[1..], b);
      case Unwatch(s) => ChangedConcat(Unwatched(ss, s), a[1..], b);
    }
  }

  /** What the visits make of the list is what their changes make of it, one by one. */
  lemma {:induction false} AfterIsHistory(func: Callback, ss: seq<Session>, visits: seq<Session>)
    ensures After(func, ss, visits) == Changed(ss, History(func, visits))
  {
    if visits != [] {
      var done, s := visits[..|visits| - 1], visits[|visits| - 1];
      var r := func(done, s);
      var last := if r.answer == REMOVE then [Unwatch(s)] else [];
      AfterIsHistory(func, ss, done);
      ChangedConcat(ss, History(func, done), r.changes);
      ChangedConcat(ss, History(func, done) + r.changes, last);
    }
  }

  /** A session is listed exactly if the last change about it was to watch it, or there was
      none and it was listed before. */
  lemma {:induction false} ChangedExactly(ss: seq<Session>, changes: seq<Change>, s: Session)
    requires NoDuplicates(ss)
    ensures s in Changed(ss, changes) <==>
              (LastChange(changes, s) == Some(true) || (LastChange(changes, s) == None && s in ss))
    decreases |changes|
  {
    if changes != [] {
      var n := |changes| - 1;
      var init, c := changes[..n], changes[n];
      ChangedExactly(ss, init, s);
      ChangedKeeps(ss, init);
      ChangedConcat(ss, init, [c]);
      assert changes == init + [c];
      var before := Changed(ss, init);
      assert Changed(before, [c]) == if c.Watch? then Watched(before, c.s) else Unwatched(before, c.s);
      if c.Unwatch? && c.s in before {
        RemovedAt(before, Find(before, c.s), s);
      }
    }
  }

  /** On return of the filter a session is listed exactly if the last thing that happened to
      it during the visits was a watch, or nothing did and it was listed before. */
  lemma ListedExactly(func: Callback, ss: seq<Session>, visits: seq<Session>)
    requires NoDuplicates(ss)
    ensures forall s :: s in After(func, ss, visits) <==> EndsListed(func, ss, visits, s)
  {
    AfterIsHistory(func, ss, visits);
    forall s ensures s in After(func, ss, visits) <==> EndsListed(func, ss, visits, s) {
      ChangedExactly(ss, History(func, visits), s);
    }
  }

  ghost predicate EndsListed(func: Callback, ss: seq<Session>, visits: seq<Session>, s: Session) {
    var last := LastChange(History(func, visits), s);
    last == Some(true) || (last == None && s in ss)
  }

  /** Sessions that nobody unwatches stay in the order they were listed in. */
  lemma {:induction false} OrderIsKept(ss: seq<Session>, changes: seq<Change>, a: Session, b: Session)
    requires NoDuplicates(ss) && Find(ss, a) < Find(ss, b) < |ss|
    requires Unwatch(a) !in changes && Unwatch(b) !in changes
    ensures Find(Changed(ss, changes), a) < Find(Changed(ss, changes), b) < |Changed(ss, changes)|
    decreases |changes|
  {
    if changes != [] {
      var c := changes[0];
      var next := if c.Watch? then Watched(ss, c.s) else Unwatched(ss, c.s);
      ChangedKeeps(ss, [c]);
      assert Changed(ss, [c]) == next;
      OneChangeKeepsOrder(ss, c, a, b);
      OrderIsKept(next, changes[1..], a, b);
    }
  }

  lemma OneChangeKeepsOrder(ss: seq<Session>, c: Change, a: Session, b: Session)
    requires NoDuplicates(ss) && Find(ss, a) < Find(ss, b) < |ss| && c != Unwatch(a) && c != Unwatch(b)
    ensures var next := if c.Watch? then Watched(ss, c.s) else Unwatched(ss, c.s);
            Find(next, a) < Find(next, b) < |next|
  {
    if c.s in ss && c.Unwatch? {
      RemovalKeepsOrder(ss, Find(ss, c.s), Find(ss, a), Find(ss, b));
    } else if c.s !in ss && c.Watch? {
      FindIs([c.s] + ss, a, Find(ss, a) + 1);
      FindIs([c.s] + ss, b, Find(ss, b) + 1);
    }
  }

  lemma RemovalKeepsOrder(ss: seq<Session>, k: nat, i: nat, j: nat)
    requires NoDuplicates(ss) && i < j < |ss| && k < |ss| && k != i && k != j
    ensures Find(RemoveAt(ss, k), ss[i]) < Find(RemoveAt(ss, k), ss[j]) < |RemoveAt(ss, k)|
  {
    var next := RemoveAt(ss, k);
    assert forall n :: 0 <= n < |next| ==> next[n] == ss[if n < k then n else n + 1];
    FindIs(next, ss[i], if i < k then i else i - 1);
    FindIs(next, ss[j], if j < k then j else j - 1);
  }

  lemma FindIs(ss: seq<Session>, s: Session, i: nat)
    requires i < |ss| && ss[i] == s && forall j :: 0 <= j < i ==> ss[j] != s
    ensures Find(ss, s) == i
  {
  }

  // ------------------------------------------------------- what a visit keeps and loses

  lemma {:induction false} ChangedKeeps(ss: seq<Session>, changes: seq<Change>)
    requires NoDuplicates(ss)
    ensures NoDuplicates(Changed(ss, changes))
    ensures forall s :: s in Changed(ss, changes) ==> s in ss || Watch(s) in changes
    decreases |changes|
  {
    if changes != [] {
      match changes[0]
      case Watch(s) => ChangedKeeps(Watched(ss, s), changes[1..]);
      case Unwatch(s) =>
        UnwatchedKeeps(ss, s);
        ChangedKeeps(Unwatched(ss, s), changes[1..]);
    }
  }

  lemma UnwatchedKeeps(ss: seq<Session>, s: Session)
    requires NoDuplicates(ss)
    ensures NoDuplicates(Unwatched(ss, s))
    ensures forall t :: t in Unwatched(ss, s) ==> t in ss
  {
    if s in ss {
      var i, rest := Find(ss, s), RemoveAt(ss, Find(ss, s));
      assert forall k :: 0 <= k < |rest| ==> rest[k] == ss[if k < i then k else k + 1];
    }
  }

  lemma {:induction false} ChangedLoses(ss: seq<Session>, changes: seq<Change>, s: Session)
    requires s in ss && Unwatch(s) !in changes
    ensures s in Changed(ss, changes)
    decreases |changes|
  {
    if changes != [] {
      match changes[0]
      case Watch(t) => ChangedLoses(Watched(ss, t), changes[1..], s);
      case Unwatch(t) => ChangedLoses(Unwatched(ss, t), changes[1..], s);
    }
  }

  lemma {:induction false} AfterKeeps(func: Callback, ss: seq<Session>, visits: seq<Session>)
    requires NoDuplicates(ss)
    ensures NoDuplicates(After(func, ss, visits))
  {
    if visits != [] {
      var done, s := visits[..|visits| - 1], visits[|visits| - 1];
      AfterKeeps(func, ss, done);
      ChangedKeeps(After(func, ss, done), func(done, s).changes);
      UnwatchedKeeps(Changed(After(func, ss, done), func(done, s).changes), s);
    }
  }

  lemma RemovedAt(ss: seq<Session>, i: nat, t: Session)
    requires NoDuplicates(ss) && i < |ss|
    ensures t in RemoveAt(ss, i) <==> t in ss && t != ss[i]
  {
    var rest := RemoveAt(ss, i);
    assert forall k :: 0 <= k < |rest| ==> rest[k] == ss[if k < i then k else k + 1];
    if t in ss && t != ss[i] {
      var j :| 0 <= j < |ss| && ss[j] == t;
      assert rest[if j < i then j else j - 1] == t;
    }
  }

  lemma VisitRemoves(func: Callback, done: seq<Session>, ss: seq<Session>, s: Session)
    requires NoDuplicates(ss) && func(done, s).answer == REMOVE
    ensures s !in AfterVisit(func, done, ss, s)
  {
    var changed := Changed(ss, func(done, s).changes);
    ChangedKeeps(ss, func(done, s).changes);
    if s in changed {
      RemovedAt(changed, Find(changed, s), s);
    }
  }

  lemma VisitBringsNothingBack(func: Callback, done: seq<Session>, ss: seq<Session>, s: Session, t: Session)
    requires NoDuplicates(ss) && t !in ss && Watch(t) !in func(done, s).changes
    ensures t !in AfterVisit(func, done, ss, s)
  {
    var changed := Changed(ss, func(done, s).changes);
    ChangedKeeps(ss, func(done, s).changes);
    if s in changed {
      RemovedAt(changed, Find(changed, s), t);
    }
  }

  /** A session that was answered REMOVE is no longer listed, unless it was watched
      again during a later visit. */
  lemma {:induction false} RemovedIsGone(func: Callback, ss: seq<Session>, visits: seq<Session>, k: nat)
    requires NoDuplicates(ss) && k < |visits|
    requires func(visits[..k], visits[k]).answer == REMOVE
    requires forall j :: k < j < |visits| ==> Watch(visits[k]) !in func(visits[..j], visits[j]).changes
    ensures visits[k] !in After(func, ss, visits)
  {
    var n := |visits| - 1;
    var done, s := visits[..n], visits[n];
    AfterKeeps(func, ss, done);
    if k < n {
      forall j | k < j < n ensures Watch(done[k]) !in func(done[..j], done[j]).changes {
        assert done[..j] == visits[..j];
      }
      assert done[..k] == visits[..k];
      RemovedIsGone(func, ss, done, k);
      VisitBringsNothingBack(func, done, After(func, ss, done), s, visits[k]);
    } else {
      VisitRemoves(func, done, After(func, ss, done), s);
    }
  }

  /** A session that was listed, was never answered REMOVE and was never unwatched by a
      callback is still listed. */
  lemma {:induction false} KeptIsListed(func: Callback, ss: seq<Session>, visits: seq<Session>, s: Session)
    requires s in ss
    requires forall j :: 0 <= j < |visits| ==>
               && Unwatch(s) !in func(visits[..j], visits[j]).changes
               && (visits[j] == s ==> func(visits[..j], visits[j]).answer != REMOVE)
    ensures s in After(func, ss, visits)
  {
    if visits != [] {
      var n := |visits| - 1;
      var done := visits[..n];
      forall j | 0 <= j < n
        ensures Unwatch(s) !in func(done[..j], done[j]).changes
        ensures done[j] == s ==> func(done[..j], done[j]).answer != REMOVE
      {
        assert done[..j] == visits[..j];
      }
      KeptIsListed(func, ss, done, s);
      ChangedLoses(After(func, ss, done), func(done, visits[n]).changes, s);
    }
  }

  /** A session is in the result exactly if it was visited and answered REF; and it is
      there once if it was visited once. */
  lemma {:induction false} ReferencedExactly(func: Callback, visits: seq<Session>, k: nat)
    requires NoDuplicates(visits) && k < |visits|
    ensures NoDuplicates(Referenced(func, visits))
    ensures visits[k] in Referenced(func, visits) <==> func(visits[..k], visits[k]).answer == REF
  {
    var n := |visits| - 1;
    var done := visits[..n];
    if n > 0 {
      ReferencedExactly(func, done, if k < n then k else 0);
      assert k < n ==> done[..k] == visits[..k];
    }
    assert visits[n] !in done;
  }

  /** The result lists the later visits first. */
  lemma {:induction false} ReferencedLatestFirst(func: Callback, visits: seq<Session>, j: nat, k: nat)
    requires NoDuplicates(visits) && j < k < |visits|
    requires visits[j] in Referenced(func, visits) && visits[k] in Referenced(func, visits)
    ensures Find(Referenced(func, visits), visits[k]) < Find(Referenced(func, visits), visits[j])
  {
    var n := |visits| - 1;
    var done := visits[..n];
    if k < n {
      EarlierDiffer(visits, j);
      EarlierDiffer(visits, k);
      StillReferenced(func, visits, visits[j]);
      StillReferenced(func, visits, visits[k]);
      ReferencedLatestFirst(func, done, j, k);
    } else {
      EarlierDiffer(visits, j);
      StillReferenced(func, visits, visits[j]);
      LastReferenced(func, visits);
    }
  }

  /** Where the last session visited is in the result. */
  lemma LastReferenced(func: Callback, visits: seq<Session>)
    requires visits != [] && visits[|visits| - 1] !in visits[..|visits| - 1]
    requires visits[|visits| - 1] in Referenced(func, visits)
    ensures func(visits[..|visits| - 1], visits[|visits| - 1]).answer == REF
    ensures Find(Referenced(func, visits), visits[|visits| - 1]) == 0
  {
  }

  lemma EarlierDiffer(visits: seq<Session>, j: nat)
    requires NoDuplicates(visits) && j < |visits| - 1
    ensures visits[..|visits| - 1][j] == visits[j] != visits[|visits| - 1]
    ensures visits[|visits| - 1] !in visits[..|visits| - 1] && NoDuplicates(visits[..|visits| - 1])
  {
  }

  /** Where a session other than the last one visited is in the result. */
  lemma StillReferenced(func: Callback, visits: seq<Session>, s: Session)
    requires visits != [] && s != visits[|visits| - 1]
    ensures var done, last := visits[..|visits| - 1], visits[|visits| - 1];
            && (s in Referenced(func, visits) <==> s in Referenced(func, done))
            && Find(Referenced(func, visits), s)
               == Find(Referenced(func, done), s) + if func(done, last).answer == REF then 1 else 0
  {
    var done, last := visits[..|visits| - 1], visits[|visits| - 1];
    var rest := Referenced(func, done);
    if func(done, last).answer == REF {
      FindBehind(last, rest, s);
    } else {
      assert [] + rest == rest;
    }
  }

  lemma FindBehind(first: Session, rest: seq<Session>, s: Session)
    requires first != s
    ensures Find([first] + rest, s) == 1 + Find(rest, s)
  {
    assert ([first] + rest)[1..] == rest;
  }

  /** The first `n` sessions of the list are all in `seen`. */
  ghost predicate AllSeen(ss: seq<Session>, n: nat, seen: set<Session>) {
    n <= |ss| && forall i :: 0 <= i < n ==> ss[i] in seen
  }

  /** The session visited next is the first one of the list that was not visited. */
  ghost predicate IsNext(ss: seq<Session>, visits: seq<Session>, s: Session) {
    exists i :: 0 <= i < |ss| && ss[i] == s && s !in visits && forall j :: 0 <= j < i ==> ss[j] in visits
  }

  /** Each visit was to the first session that was listed and not visited at that time. */
  ghost predicate InListOrder(func: Callback, start: seq<Session>, visits: seq<Session>) {
    visits == []
    || (var done := visits[..|visits| - 1];
        InListOrder(func, start, done) && IsNext(After(func, start, done), done, visits[|visits| - 1]))
  }

  ghost function Members(visits: seq<Session>): set<Session> {
    set s | s in visits
  }

  /** The walk on its way: what was visited, and what the visits made of list and result. */
  ghost predicate Progress(func: Callback, start: seq<Session>, known: set<Session>,
                           visits: seq<Session>, visited: set<Session>,
                           ss: seq<Session>, result: seq<Session>)
  {
    && NoDuplicates(visits) && visited == Members(visits) && visited <= known
    && (forall s :: s in ss ==> s in known)
    && ss == After(func, start, visits)
    && InListOrder(func, start, visits)
    && result == Referenced(func, visits)
  }

  lemma VisitProgresses(func: Callback, start: seq<Session>, known: set<Session>,
                        visits: seq<Session>, visited: set<Session>, ss: seq<Session>, result: seq<Session>,
                        walk: nat, sess: Session, more: seq<Session>, longer: seq<Session>)
    requires Progress(func, start, known, visits, visited, ss, result)
    requires AllSeen(ss, walk, visited) && walk < |ss| && ss[walk] == sess && sess !in visited
    requires more == AfterVisit(func, visits, ss, sess) && forall s :: s in more ==> s in known
    requires longer == (if func(visits, sess).answer == REF then [sess] else []) + result
    ensures Progress(func, start, known, visits + [sess], visited + {sess}, more, longer)
    ensures known - (visited + {sess}) < known - visited
  {
    var next := visits + [sess];
    assert next[..|next| - 1] == visits;
    assert sess in known - visited && sess !in known - (visited + {sess});
    assert IsNext(ss, visits, sess);
  }

  lemma WalkIsDone(func: Callback, start: seq<Session>, known: set<Session>,
                   visits: seq<Session>, visited: set<Session>, ss: seq<Session>, result: seq<Session>)
    requires Progress(func, start, known, visits, visited, ss, result) && AllSeen(ss, |ss|, visited)
    ensures NoDuplicates(visits) && InListOrder(func, start, visits)
    ensures forall s :: s in ss ==> s in visits
    ensures ss == After(func, start, visits) && result == Referenced(func, visits)
  {
  }

  // ------------------------------------------------------------------- the client

  class Client {
    var sessions: seq<Session>
    var sessionsCookie: nat
    /** Handler id of the "session-removed" signal; 0 when not connected. */
    var sessionRemovedId: nat
    /** The id of the latest connected handler; the signal system never reuses ids. */
    var lastHandlerId: nat

    ghost predicate Valid()
      reads this
    {
      && NoDuplicates(sessions)
      && (sessionRemovedId != 0 <==> sessions != [])
      && sessionRemovedId <= lastHandlerId
    }

    constructor ()
      ensures Valid() && sessions == []
    {
      sessions, sessionsCookie, sessionRemovedId, lastHandlerId := [], 0, 0, 0;
    }

    method ConnectSessionRemoved()
      modifies `sessionRemovedId, `lastHandlerId
      ensures sessionRemovedId == lastHandlerId == old(lastHandlerId) + 1
    {
      lastHandlerId := lastHandlerId + 1;
      sessionRemovedId := lastHandlerId;
    }

    /** `client_watch_session`. */
    method WatchSession(s: Session)
      requires Valid()
      modifies this
      ensures Valid() && sessions == Watched(old(sessions), s)
      ensures if s in old(sessions) then sessions == old(sessions) else sessions == [s] + old(sessions)
      ensures sessionRemovedId != 0 && (old(sessionRemovedId) != 0 ==> sessionRemovedId == old(sessionRemovedId))
      ensures sessionsCookie == old(sessionsCookie) + if s in old(sessions) then 0 else 1
    {
      if s !in sessions {
        sessions := [s] + sessions;
        sessionsCookie := sessionsCookie + 1;
        if sessionRemovedId == 0 {
          ConnectSessionRemoved();
        }
      }
    }

    /** `client_unwatch_session`, with the position of the session if it is known. */
    method UnwatchSession(s: Session, link: nat, linkKnown: bool)
      requires Valid()
      requires linkKnown ==> link < |sessions| && sessions[link] == s
      modifies this
      ensures Valid() && sessions == Unwatched(old(sessions), s)
      ensures sessions != [] ==> sessionRemovedId == old(sessionRemovedId)
      ensures sessionsCookie == old(sessionsCookie) + if s in old(sessions) then 1 else 0
    {
      var at := link;
      if !linkKnown {
        at := Find(sessions, s);
        if at == |sessions| {
          return;
        }
      }
      assert at == Find(sessions, s);
      sessions := RemoveAt(sessions, at);
      sessionsCookie := sessionsCookie + 1;
      if sessions == [] {
        sessionRemovedId := 0;
      }
    }

    /** What the callback does to the list. */
    method Apply(changes: seq<Change>)
      requires Valid()
      modifies this
      ensures Valid() && sessions == Changed(old(sessions), changes)
      ensures sessionsCookie >= old(sessionsCookie)
      ensures sessionsCookie == old(sessionsCookie) ==> sessions == old(sessions)
    {
      var i := 0;
      while i < |changes|
        invariant i <= |changes| && Valid()
        invariant Changed(sessions, changes[i..]) == Changed(old(sessions), changes)
        invariant sessionsCookie >= old(sessionsCookie)
        invariant sessionsCookie == old(sessionsCookie) ==> sessions == old(sessions)
      {
        assert changes[i..][1..] == changes[i + 1..];
        match changes[i] {
          case Watch(s) => WatchSession(s);
          case Unwatch(s) => UnwatchSession(s, 0, false);
        }
        i := i + 1;
      }
    }

    /** One visit: call the callback on the session at `walk`, with the lock released, and
        do what it answers. `changed` tells whether the list changed meanwhile. */
    method Visit(func: Callback, done: seq<Session>, walk: nat, ghost known: set<Session>)
      returns (answer: Answer, changed: bool)
      requires Valid() && StaysWithin(func, known) && walk < |sessions|
      requires forall s :: s in sessions ==> s in known
      modifies this
      ensures Valid() && (forall s :: s in sessions ==> s in known)
      ensures answer == func(done, old(sessions)[walk]).answer
      ensures sessions == AfterVisit(func, done, old(sessions), old(sessions)[walk])
      ensures !changed && answer == REMOVE ==> sessions == RemoveAt(old(sessions), walk)
      ensures !changed && answer != REMOVE ==> sessions == old(sessions)
    {
      var cookie := sessionsCookie;
      var sess := sessions[walk];
      var reaction := func(done, sess);
      ChangedKeeps(sessions, reaction.changes);
      Apply(reaction.changes);
      changed := cookie != sessionsCookie;
      answer := reaction.answer;
      if answer == REMOVE {
        UnwatchSession(sess, walk, !changed);
      }
    }

    /** One round of the walk, for a session that was not visited: the visit, and the place
        to go on from. */
    method VisitAt(func: Callback, done: seq<Session>, walk: nat, sofar: seq<Session>,
                   ghost known: set<Session>, ghost visited: set<Session>)
      returns (next: nat, result: seq<Session>)
      requires Valid() && StaysWithin(func, known) && walk < |sessions|
      requires (forall s :: s in sessions ==> s in known) && AllSeen(sessions, walk, visited)
      modifies this
      ensures Valid() && (forall s :: s in sessions ==> s in known)
      ensures sessions == AfterVisit(func, done, old(sessions), old(sessions)[walk])
      ensures result == (if func(done, old(sessions)[walk]).answer == REF then [old(sessions)[walk]] else []) + sofar
      ensures AllSeen(sessions, next, visited + {old(sessions)[walk]})
    {
      var sess := sessions[walk];
      var answer, changed := Visit(func, done, walk, known);
      next, result := walk, sofar;
      match answer {
        case REMOVE =>
        case REF =>
          result := [sess] + result;
          next := next + 1;
        case KEEP =>
          next := next + 1;
      }
      if changed {
        // goto restart
        next := 0;
      }
    }

    /**
     `gst_rtsp_client_session_filter` with a callback. `visits` is the sequence of
     sessions it was called on. `known` bounds the sessions that ever turn up.
     */
    method SessionFilter(func: Callback, ghost known: set<Session>)
      returns (result: seq<Session>, visits: seq<Session>)
      requires Valid() && StaysWithin(func, known)
      requires forall s :: s in sessions ==> s in known
      modifies this
      ensures Valid()
      // each session is visited at most once
      ensures NoDuplicates(visits)
      // each visit is to the first listed session that was not visited yet
      ensures InListOrder(func, old(sessions), visits)
      // every session that is still listed was visited
      ensures forall s :: s in sessions ==> s in visits
      // a session is listed if the visits watched it last, or left it alone in the list
      ensures forall s :: s in sessions <==> EndsListed(func, old(sessions), visits, s)
      // the list is what the visits, and nothing else, made of it
      ensures sessions == After(func, old(sessions), visits)
      ensures result == Referenced(func, visits)
    {
      var visited;
      result, visits, visited := Walk(func, known);
      WalkIsDone(func, old(sessions), known, visits, visited, sessions, result);
      ListedExactly(func, old(sessions), visits);
    }

    /** A round of the walk, and the progress it makes. */
    method Round(func: Callback, ghost known: set<Session>, ghost start: seq<Session>, walk: nat,
                 visits: seq<Session>, ghost visited: set<Session>, sofar: seq<Session>)
      returns (next: nat, result: seq<Session>)
      requires Valid() && StaysWithin(func, known) && AllSeen(sessions, walk, visited)
      requires Progress(func, start, known, visits, visited, sessions, sofar)
      requires walk < |sessions| && sessions[walk] !in visited
      modifies this
      ensures Valid() && AllSeen(sessions, next, visited + {old(sessions)[walk]})
      ensures Progress(func, start, known, visits + [old(sessions)[walk]], visited + {old(sessions)[walk]},
                       sessions, result)
      ensures known - (visited + {old(sessions)[walk]}) < known - visited
    {
      ghost var before := sessions;
      next, result := VisitAt(func, visits, walk, sofar, known, visited);
      VisitProgresses(func, start, known, visits, visited, before, sofar, walk, before[walk], sessions, result);
    }

    /** The walk over the list, which starts again whenever the list changed. */
    method Walk(func: Callback, ghost known: set<Session>)
      returns (result: seq<Session>, visits: seq<Session>, visited: set<Session>)
      requires Valid() && StaysWithin(func, known)
      requires forall s :: s in sessions ==> s in known
      modifies this
      ensures Valid() && AllSeen(sessions, |sessions|, visited)
      ensures Progress(func, old(sessions), known, visits, visited, sessions, result)
    {
      result, visits, visited := [], [], {};
      var walk: nat := 0;
      while walk < |sessions|
        invariant Valid() && AllSeen(sessions, walk, visited)
        invariant Progress(func, old(sessions), known, visits, visited, sessions, result)
        decreases known - visited, |sessions| - walk
      {
        var sess := sessions[walk];
        if sess in visited {
          walk := walk + 1;
          continue;
        }
        walk, result := Round(func, known, old(sessions), walk, visits, visited, result);
        visited := visited + {sess};
        visits := visits + [sess];
      }
    }

    /** The same without a callback: every session is referenced, none is changed. */
    method SessionFilterAll() returns (result: seq<Session>)
      requires Valid()
      ensures IsReverse(result, sessions)
    {
      result := [];
      var walk := 0;
      while walk < |sessions|
        invariant walk <= |sessions|
        invariant Reversed(sessions[walk..]) + result == Reversed(sessions)
      {
        assert sessions[walk..][1..] == sessions[walk + 1..];
        result := [sessions[walk]] + result;
        walk := walk + 1;
      }
      assert result == Reversed(sessions);
      ReversedIsReverse(sessions);
    }
  }
}
