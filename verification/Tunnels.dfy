/**
 HTTP tunnels: a GET and a POST connection with the same tunnel id are joined into one
 RTSP connection, by way of a table of the halves that still wait for a partner.

 `handle_tunnel` holds the lock of the table only while it looks a half up, and decides
 later, under the lock of the client it found. Both parts are steps of their own here,
 and any steps of other clients may come in between.
 */
module Tunnels {
  import opened Basics

  type TunnelId = string
  type ClientId = nat

  datatype TunnelState = UNKNOWN | GET | POST

  /** Where a client stands. The code does not store this; it follows from its steps. */
  datatype Place =
    | Fresh                      // no half of a tunnel yet
    | Pending                    // in the table
    | Taken(taker: ClientId)       // out of the table, in the hands of another client
    | Taking(half: ClientId)     // in the middle of handle_tunnel, holding that half
    | Owner                      // owns a joined tunnel
    | Spent                      // gave its connection to the owner of a tunnel
    | Alone                      // a half without a partner, not in the table

  /** `losses` counts how often the client lost a tunnel that it owned. */
  datatype Info = Info(tunnelId: Option<TunnelId>, tstate: TunnelState, hasWatch: bool,
                       place: Place, losses: nat)

  datatype Join = Join(older: ClientId, newer: ClientId, olderId: Option<TunnelId>, newerId: Option<TunnelId>,
                       olderState: TunnelState, newerState: TunnelState, olderHadWatch: bool)

  datatype World = World(info: map<ClientId, Info>, table: map<TunnelId, ClientId>, joins: seq<Join>)

  const EMPTY_WORLD := World(map[], map[], [])

  datatype Event =
    | Attach(client: ClientId, tunnelId: Option<TunnelId>)
    | Begin(client: ClientId, half: TunnelState)
    | Finish(client: ClientId)
    | Lost(client: ClientId)
    | Closed(client: ClientId)
    | WatchGone(client: ClientId)

  /** What the connections promise: a connection turns into a half of a tunnel at most
      once, and reports a tunnel lost only if it owns one. */
  predicate EventOk(w: World, e: Event) {
    match e
    case Attach(c, _) => c !in w.info
    case Begin(c, half) => c in w.info && w.info[c].place == Fresh && w.info[c].hasWatch && half != UNKNOWN
    case Finish(c) => c in w.info && w.info[c].place.Taking?
    case Lost(c) => c in w.info && w.info[c].place == Owner
    case Closed(c) => c in w.info
    case WatchGone(c) => c in w.info
  }

  function Move(w: World, c: ClientId, p: Place): World
    requires c in w.info
  {
    w.(info := w.info[c := w.info[c].(place := p)])
  }

  /** `remember_tunnel`: never overwrites an entry. */
  function Remember(w: World, c: ClientId): World
    requires c in w.info
  {
    var id := w.info[c].tunnelId;
    if id.None? || id.value in w.table then Move(w, c, Alone)
    else Move(w, c, Pending).(table := w.table[id.value := c])
  }

  /** The first half of handle_tunnel: takes the half that waits out, or waits itself. */
  function Exchange(w: World, c: ClientId): World
    requires c in w.info
  {
    var id := w.info[c].tunnelId;
    if id.Some? && id.value in w.table && w.table[id.value] in w.info then
      var o := w.table[id.value];
      Move(Move(w, o, Taken(c)), c, Taking(o)).(table := w.table - {id.value})
    else Remember(w, c)
  }

  function SetHalf(w: World, c: ClientId, half: TunnelState): World
    requires c in w.info
  {
    w.(info := w.info[c := w.info[c].(tstate := half)])
  }

  /** tunnel_get or tunnel_post, and the first half of handle_tunnel. */
  function BeginStep(w: World, c: ClientId, half: TunnelState): World
    requires c in w.info
  {
    Exchange(SetHalf(w, c, half), c)
  }

  /** What the second half of handle_tunnel checks about the older client. */
  predicate CanJoin(older: Info, newer: Info) {
    older.hasWatch && older.tstate != newer.tstate
  }

  function FinishStep(w: World, c: ClientId): World
    requires EventOk(w, Finish(c))
  {
    var o := w.info[c].place.half;
    if o !in w.info then w
    else if !CanJoin(w.info[o], w.info[c]) then Move(Move(w, o, Alone), c, Alone)
    else
      var older, newer := w.info[o], w.info[c];
      var v := Move(Move(w, o, Owner), c, Spent);
      v.(info := v.info[c := v.info[c].(hasWatch := false)],
         joins := w.joins + [Join(o, c, older.tunnelId, newer.tunnelId,
                                  older.tstate, newer.tstate, older.hasWatch)])
  }

  /** Closing removes the entry of the tunnel id, whoever put it there. */
  function CloseStep(w: World, c: ClientId): World
    requires c in w.info
  {
    var id := w.info[c].tunnelId;
    if id.None? || id.value !in w.table || w.table[id.value] !in w.info then w
    else Move(w, w.table[id.value], Alone).(table := w.table - {id.value})
  }

  function LostStep(w: World, c: ClientId): World
    requires c in w.info
  {
    Remember(w.(info := w.info[c := w.info[c].(losses := w.info[c].losses + 1)]), c)
  }

  function Step(w: World, e: Event): World
    requires EventOk(w, e)
  {
    match e
    case Attach(c, id) => w.(info := w.info[c := Info(id, UNKNOWN, true, Fresh, 0)])
    case Begin(c, half) => BeginStep(w, c, half)
    case Finish(c) => FinishStep(w, c)
    case Lost(c) => LostStep(w, c)
    case Closed(c) => CloseStep(w, c)
    case WatchGone(c) => w.(info := w.info[c := w.info[c].(hasWatch := false)])
  }

  // --------------------------------------------------------------------- invariants

  ghost predicate EntryOk(w: World, id: TunnelId)
    requires id in w.table
  {
    var c := w.table[id];
    c in w.info && w.info[c].place == Pending && w.info[c].tunnelId == Some(id)
  }

  /** The place of a client agrees with the table and with the place of its counterpart. */
  ghost predicate PlaceOk(w: World, c: ClientId)
    requires c in w.info
  {
    var i := w.info[c];
    && (i.place == Fresh <==> i.tstate == UNKNOWN)
    && match i.place
       case Pending => i.tunnelId.Some? && i.tunnelId.value in w.table && w.table[i.tunnelId.value] == c
       case Taken(d) => d in w.info && w.info[d].place == Taking(c)
       case Taking(o) =>
         && i.tunnelId.Some?
         && o in w.info && w.info[o].place == Taken(c) && w.info[o].tunnelId == i.tunnelId
       case _ => true
  }

  /** Entries and pending halves correspond, and so do halves taken out and their takers:
      a half is in the hands of at most one client. */
  ghost predicate PlacesOk(w: World) {
    && (forall id :: id in w.table ==> EntryOk(w, id))
    && (forall c :: c in w.info ==> PlaceOk(w, c))
  }

  ghost predicate GoodJoin(j: Join) {
    && j.older != j.newer
    && j.olderId.Some? && j.olderId == j.newerId
    && ((j.olderState == GET && j.newerState == POST) || (j.olderState == POST && j.newerState == GET))
    && j.olderHadWatch
  }

  ghost function JoinsOf(joins: seq<Join>, c: ClientId): nat {
    if joins == [] then 0
    else (if joins[|joins| - 1].older == c then 1 else 0) + JoinsOf(joins[..|joins| - 1], c)
  }

  /** The older client is still a half or an owner; the newer one is out of the game. */
  ghost predicate JoinOk(w: World, j: Join) {
    && GoodJoin(j)
    && j.older in w.info && j.newer in w.info
    && w.info[j.newer].place == Spent
    && !w.info[j.older].place.Fresh? && !w.info[j.older].place.Taking? && !w.info[j.older].place.Spent?
  }

  ghost predicate JoinsOk(w: World) {
    && (forall i :: 0 <= i < |w.joins| ==> JoinOk(w, w.joins[i]))
    && (forall i, j :: 0 <= i < j < |w.joins| ==> w.joins[i].newer != w.joins[j].newer)
    && (forall c :: c in w.info ==>
          JoinsOf(w.joins, c) == w.info[c].losses + (if w.info[c].place == Owner then 1 else 0))
  }

  ghost predicate Invariant(w: World) {
    PlacesOk(w) && JoinsOk(w)
  }

  lemma {:induction false} NoJoins(joins: seq<Join>, c: ClientId)
    requires forall i :: 0 <= i < |joins| ==> joins[i].older != c
    ensures JoinsOf(joins, c) == 0
  {
    if joins != [] {
      NoJoins(joins[..|joins| - 1], c);
    }
  }

  lemma StepKeepsInvariant(w: World, e: Event)
    requires Invariant(w) && EventOk(w, e)
    ensures Invariant(Step(w, e))
  {
    match e
    case Attach(c, id) => AttachKeeps(w, c, id);
    case Begin(c, half) => BeginKeeps(w, c, half);
    case Finish(c) => FinishKeeps(w, c);
    case Lost(c) => LostKeeps(w, c);
    case Closed(c) => CloseKeeps(w, c);
    case WatchGone(c) => WatchGoneKeeps(w, c);
  }

  lemma AttachKeeps(w: World, c: ClientId, id: Option<TunnelId>)
    requires Invariant(w) && c !in w.info
    ensures Invariant(Step(w, Attach(c, id)))
  {
    var v := Step(w, Attach(c, id));
    forall x | x in v.table ensures EntryOk(v, x) {
      assert EntryOk(w, x);
    }
    forall d | d in v.info ensures PlaceOk(v, d) {
      assert d != c ==> PlaceOk(w, d);
    }
    SameJoinsOk(w, v, {c});
    NoJoins(w.joins, c);
  }

  lemma WatchGoneKeeps(w: World, c: ClientId)
    requires Invariant(w) && c in w.info
    ensures Invariant(Step(w, WatchGone(c)))
  {
    var v := Step(w, WatchGone(c));
    forall x | x in v.table ensures EntryOk(v, x) {
      assert EntryOk(w, x);
    }
    forall d | d in v.info ensures PlaceOk(v, d) {
      assert PlaceOk(w, d);
    }
    SameJoinsOk(w, v, {});
  }

  ghost predicate NeverOlder(w: World, d: ClientId) {
    d in w.info ==> w.info[d].place.Fresh? || w.info[d].place.Taking?
  }

  /** Clients that are in no join may change their place freely, among those allowed to
      an older client; the joins stay in order. */
  lemma SameJoinsOk(w: World, v: World, changed: set<ClientId>)
    requires JoinsOk(w) && v.joins == w.joins && w.info.Keys <= v.info.Keys
    requires forall d :: d in w.info && d !in changed ==> v.info[d].place == w.info[d].place
    requires forall d :: d in changed && d in w.info ==>
               && w.info[d].place != Spent
               && (w.info[d].place.Fresh? || w.info[d].place.Taking?
                   || !(v.info[d].place.Fresh? || v.info[d].place.Taking? || v.info[d].place.Spent?))
    ensures forall i :: 0 <= i < |v.joins| ==> JoinOk(v, v.joins[i])
    ensures forall d, i :: 0 <= i < |v.joins| && d in changed && NeverOlder(w, d) ==> v.joins[i].older != d
    ensures forall d, i :: 0 <= i < |v.joins| && d in changed ==> v.joins[i].newer != d
  {
    forall i | 0 <= i < |v.joins| ensures JoinOk(v, v.joins[i]) {
      assert JoinOk(w, w.joins[i]);
    }
    assert forall i :: 0 <= i < |w.joins| ==> JoinOk(w, w.joins[i]);
  }

  lemma CloseKeeps(w: World, c: ClientId)
    requires Invariant(w) && c in w.info
    ensures Invariant(CloseStep(w, c))
  {
    var v := CloseStep(w, c);
    var id := w.info[c].tunnelId;
    if v != w {
      var o := w.table[id.value];
      assert EntryOk(w, id.value);
      forall x | x in v.table ensures EntryOk(v, x) {
        assert EntryOk(w, x);
      }
      forall d | d in v.info ensures PlaceOk(v, d) {
        assert PlaceOk(w, d);
      }
      SameJoinsOk(w, v, {o});
    }
  }

  lemma RememberKeepsPlaces(w: World, c: ClientId)
    requires c in w.info && w.info[c].tstate != UNKNOWN
    requires forall id :: id in w.table ==> EntryOk(w, id) && w.table[id] != c
    requires forall d :: d in w.info && d != c ==>
               PlaceOk(w, d) && w.info[d].place != Taken(c) && w.info[d].place != Taking(c)
    ensures PlacesOk(Remember(w, c))
  {
    var v := Remember(w, c);
    forall x | x in v.table ensures EntryOk(v, x) {
      assert x in w.table ==> EntryOk(w, x);
    }
    forall d | d in v.info ensures PlaceOk(v, d) {
      assert d != c ==> PlaceOk(w, d);
    }
  }

  /** Nobody has a client in hand, or is in its hands, that is not marked so itself. */
  lemma Untouched(w: World, c: ClientId)
    requires PlacesOk(w) && c in w.info && !w.info[c].place.Taken? && !w.info[c].place.Taking?
    ensures forall d :: d in w.info ==> w.info[d].place != Taken(c) && w.info[d].place != Taking(c)
    ensures w.info[c].place != Pending ==> forall id :: id in w.table ==> w.table[id] != c
  {
    forall d | d in w.info ensures w.info[d].place != Taken(c) && w.info[d].place != Taking(c) {
      assert PlaceOk(w, d);
    }
    forall id | id in w.table ensures w.info[c].place != Pending ==> w.table[id] != c {
      assert EntryOk(w, id);
    }
  }

  lemma LostKeeps(w: World, c: ClientId)
    requires Invariant(w) && EventOk(w, Lost(c))
    ensures Invariant(LostStep(w, c))
  {
    var u := w.(info := w.info[c := w.info[c].(losses := w.info[c].losses + 1)]);
    assert PlaceOk(w, c);
    OthersKeepPlaces(w, u, c);
    RememberKeepsPlaces(u, c);
    LostKeepsJoins(w, c);
  }

  lemma LostKeepsJoins(w: World, c: ClientId)
    requires JoinsOk(w) && EventOk(w, Lost(c))
    ensures JoinsOk(LostStep(w, c))
  {
    var v := LostStep(w, c);
    assert forall d :: d in w.info && d != c ==> v.info[d] == w.info[d];
    assert v.info[c].losses == w.info[c].losses + 1 && v.info[c].place != Owner;
    SameJoinsOk(w, v, {c});
  }

  /** Changing a client that is in nobody's hands leaves all others as they were. */
  lemma OthersKeepPlaces(w: World, u: World, c: ClientId)
    requires PlacesOk(w) && c in w.info && (w.info[c].place == Owner || w.info[c].place == Fresh)
    requires u.table == w.table && u.info.Keys == w.info.Keys
    requires forall d :: d in w.info && d != c ==> u.info[d] == w.info[d]
    ensures forall x :: x in u.table ==> EntryOk(u, x) && u.table[x] != c
    ensures forall d :: d in u.info && d != c ==>
              PlaceOk(u, d) && u.info[d].place != Taken(c) && u.info[d].place != Taking(c)
  {
    Untouched(w, c);
    forall x | x in u.table ensures EntryOk(u, x) && u.table[x] != c {
      assert EntryOk(w, x);
    }
    forall d | d in u.info && d != c
      ensures PlaceOk(u, d) && u.info[d].place != Taken(c) && u.info[d].place != Taking(c)
    {
      assert PlaceOk(w, d);
    }
  }

  lemma BeginKeeps(w: World, c: ClientId, half: TunnelState)
    requires Invariant(w) && EventOk(w, Begin(c, half))
    ensures Invariant(BeginStep(w, c, half))
  {
    var u := SetHalf(w, c, half);
    var id := w.info[c].tunnelId;
    OthersKeepPlaces(w, u, c);
    if id.Some? && id.value in w.table {
      assert EntryOk(u, id.value);
      TakeKeepsPlaces(u, c, id.value);
    } else {
      RememberKeepsPlaces(u, c);
    }
    BeginKeepsJoins(w, c, half);
  }

  lemma BeginKeepsJoins(w: World, c: ClientId, half: TunnelState)
    requires Invariant(w) && EventOk(w, Begin(c, half))
    ensures JoinsOk(BeginStep(w, c, half))
  {
    var id := w.info[c].tunnelId;
    assert PlaceOk(w, c);
    if id.Some? && id.value in w.table {
      assert EntryOk(w, id.value);
      TakeKeepsJoins(w, c, half, id.value);
    } else {
      WaitKeepsJoins(w, c, half);
    }
  }

  lemma TakeKeepsJoins(w: World, c: ClientId, half: TunnelState, id: TunnelId)
    requires JoinsOk(w) && EventOk(w, Begin(c, half))
    requires w.info[c].tunnelId == Some(id) && id in w.table && EntryOk(w, id)
    ensures JoinsOk(BeginStep(w, c, half))
  {
    QuietKeepsJoins(w, BeginStep(w, c, half), {c, w.table[id]});
  }

  lemma WaitKeepsJoins(w: World, c: ClientId, half: TunnelState)
    requires JoinsOk(w) && EventOk(w, Begin(c, half))
    requires w.info[c].tunnelId.Some? ==> w.info[c].tunnelId.value !in w.table
    ensures JoinsOk(BeginStep(w, c, half))
  {
    QuietKeepsJoins(w, BeginStep(w, c, half), {c});
  }

  /** Nothing about the joins changes while no changed client is or becomes an owner. */
  lemma QuietKeepsJoins(w: World, v: World, changed: set<ClientId>)
    requires JoinsOk(w) && v.joins == w.joins && v.info.Keys == w.info.Keys
    requires changed <= w.info.Keys
    requires forall d :: d in w.info && d !in changed ==> v.info[d] == w.info[d]
    requires forall d :: d in changed ==>
               && v.info[d].losses == w.info[d].losses
               && w.info[d].place != Spent && w.info[d].place != Owner && v.info[d].place != Owner
               && (w.info[d].place.Fresh? || w.info[d].place.Taking?
                   || !(v.info[d].place.Fresh? || v.info[d].place.Taking? || v.info[d].place.Spent?))
    ensures JoinsOk(v)
  {
    SameJoinsOk(w, v, changed);
  }

  lemma TakeKeepsPlaces(u: World, c: ClientId, id: TunnelId)
    requires c in u.info && u.info[c].tstate != UNKNOWN && u.info[c].tunnelId == Some(id) && id in u.table
    requires forall x :: x in u.table ==> EntryOk(u, x) && u.table[x] != c
    requires forall d :: d in u.info && d != c ==>
               PlaceOk(u, d) && u.info[d].place != Taken(c) && u.info[d].place != Taking(c)
    ensures u.table[id] in u.info
    ensures PlacesOk(Move(Move(u, u.table[id], Taken(c)), c, Taking(u.table[id])).(table := u.table - {id}))
  {
    var o := u.table[id];
    assert EntryOk(u, id) && PlaceOk(u, o);
    var v := Move(Move(u, o, Taken(c)), c, Taking(o)).(table := u.table - {id});
    forall x | x in v.table ensures EntryOk(v, x) {
      assert EntryOk(u, x);
    }
    forall d | d in v.info ensures PlaceOk(v, d) {
      assert d != c ==> PlaceOk(u, d);
    }
  }

  lemma FinishKeeps(w: World, c: ClientId)
    requires Invariant(w) && EventOk(w, Finish(c))
    ensures Invariant(FinishStep(w, c))
  {
    var o := w.info[c].place.half;
    assert PlaceOk(w, c) && PlaceOk(w, o);
    FinishKeepsPlaces(w, c);
    if CanJoin(w.info[o], w.info[c]) {
      FinishKeepsJoins(w, c);
    } else {
      RefusalKeepsJoins(w, c);
    }
  }

  lemma RefusalKeepsJoins(w: World, c: ClientId)
    requires JoinsOk(w) && EventOk(w, Finish(c))
    requires var o := w.info[c].place.half;
             o in w.info && w.info[o].place == Taken(c) && !CanJoin(w.info[o], w.info[c])
    ensures JoinsOk(FinishStep(w, c))
  {
    QuietKeepsJoins(w, FinishStep(w, c), {c, w.info[c].place.half});
  }

  lemma FinishKeepsPlaces(w: World, c: ClientId)
    requires PlacesOk(w) && EventOk(w, Finish(c))
    ensures PlacesOk(FinishStep(w, c))
  {
    var v := FinishStep(w, c);
    var o := w.info[c].place.half;
    assert PlaceOk(w, c) && PlaceOk(w, o);
    assert forall d :: d in w.info && d != c && d != o ==> v.info[d] == w.info[d];
    forall x | x in v.table ensures EntryOk(v, x) {
      assert EntryOk(w, x);
    }
    forall d | d in v.info ensures PlaceOk(v, d) {
      assert PlaceOk(w, d);
    }
  }

  lemma FinishKeepsJoins(w: World, c: ClientId)
    requires Invariant(w) && EventOk(w, Finish(c))
    requires w.info[c].place.half in w.info && CanJoin(w.info[w.info[c].place.half], w.info[c])
    ensures JoinsOk(FinishStep(w, c))
  {
    var v := FinishStep(w, c);
    var o := w.info[c].place.half;
    assert PlaceOk(w, c) && PlaceOk(w, o);
    var j := Join(o, c, w.info[o].tunnelId, w.info[c].tunnelId, w.info[o].tstate, w.info[c].tstate,
                  w.info[o].hasWatch);
    assert v.joins == w.joins + [j] && GoodJoin(j) && JoinOk(v, j);
    OldJoinsOk(w, v, c, o);
    forall d | d in v.info
      ensures JoinsOf(v.joins, d) == v.info[d].losses + (if v.info[d].place == Owner then 1 else 0)
    {
      assert v.joins[..|w.joins|] == w.joins;
      if d == c {
        NoJoins(w.joins, c);
      }
    }
  }

  lemma OldJoinsOk(w: World, v: World, c: ClientId, o: ClientId)
    requires JoinsOk(w) && c in w.info && o in w.info && v.info.Keys == w.info.Keys
    requires w.info[c].place.Taking? && v.info[c].place == Spent
    requires w.info[o].place.Taken? && v.info[o].place == Owner
    requires forall d :: d in w.info && d != c && d != o ==> v.info[d] == w.info[d]
    ensures forall i :: 0 <= i < |w.joins| ==>
              JoinOk(v, w.joins[i]) && w.joins[i].newer != c && w.joins[i].older != c
  {
    forall i | 0 <= i < |w.joins|
      ensures JoinOk(v, w.joins[i]) && w.joins[i].newer != c && w.joins[i].older != c
    {
      assert JoinOk(w, w.joins[i]);
    }
  }

  // --------------------------------------------------------------------- whole runs

  ghost predicate RunOk(w: World, es: seq<Event>)
    decreases |es|
  {
    es == [] || (EventOk(w, es[0]) && RunOk(Step(w, es[0]), es[1..]))
  }

  ghost function Run(w: World, es: seq<Event>): World
    requires RunOk(w, es)
    decreases |es|
  {
    if es == [] then w else Run(Step(w, es[0]), es[1..])
  }

  lemma {:induction false} RunKeepsInvariant(w: World, es: seq<Event>)
    requires Invariant(w) && RunOk(w, es)
    ensures Invariant(Run(w, es))
    decreases |es|
  {
    if es != [] {
      StepKeepsInvariant(w, es[0]);
      RunKeepsInvariant(Step(w, es[0]), es[1..]);
    }
  }

  /**
   In every interleaving: a join pairs two different clients with the same tunnel id, one
   GET and one POST, the older of them with a live watch; no client is the newer one of
   two joins; and a client is the older one of at most one join more than it lost tunnels,
   so that each time it waits in the table it finds at most one partner.
   */
  lemma RunIsSafe(es: seq<Event>, i: nat, j: nat, c: ClientId)
    requires RunOk(EMPTY_WORLD, es)
    ensures var w := Run(EMPTY_WORLD, es);
            && (i < |w.joins| ==> GoodJoin(w.joins[i]))
            && (i < j < |w.joins| ==> w.joins[i].newer != w.joins[j].newer)
            && (c in w.info ==> w.info[c].losses <= JoinsOf(w.joins, c) <= w.info[c].losses + 1)
            && (i < |w.joins| && j < |w.joins| ==> w.joins[i].newer != w.joins[j].older)
  {
    RunKeepsInvariant(EMPTY_WORLD, es);
    var w := Run(EMPTY_WORLD, es);
    if i < |w.joins| {
      assert JoinOk(w, w.joins[i]);
    }
    if j < |w.joins| {
      assert JoinOk(w, w.joins[j]);
    }
  }

  /** No step replaces an entry by another one. */
  lemma EntryIsNeverOverwritten(w: World, e: Event, id: TunnelId)
    requires EventOk(w, e) && id in w.table && id in Step(w, e).table
    ensures Step(w, e).table[id] == w.table[id]
  {
  }

  /** Closing a client leaves the pending halves of all other clients alone if and only if
      no other client is pending with its tunnel id. */
  lemma CloseSparesOthers(w: World, c: ClientId)
    requires Invariant(w) && c in w.info
    ensures (forall d :: d in w.info && d != c && w.info[d].place == Pending ==>
               CloseStep(w, c).info[d].place == Pending)
       <==> (w.info[c].tunnelId.Some? && w.info[c].tunnelId.value in w.table ==>
               w.table[w.info[c].tunnelId.value] == c)
  {
    var id := w.info[c].tunnelId;
    if id.Some? && id.value in w.table {
      var o := w.table[id.value];
      assert EntryOk(w, id.value);
      assert CloseStep(w, c).info[o].place == Alone;
    }
  }

  /** That does happen: a second GET with the id of a first one takes it out of the table
      and is refused; a POST then waits in vain once the refused client is closed. */
  lemma CloseDropsForeignHalf(id: TunnelId)
    ensures var start := [Attach(1, Some(id)), Begin(1, GET), Attach(2, Some(id)), Begin(2, GET)];
            var more := [Finish(2), Attach(3, Some(id)), Begin(3, POST)];
            && RunOk(EMPTY_WORLD, start) && RunOk(Run(EMPTY_WORLD, start), more)
            && var w := Run(Run(EMPTY_WORLD, start), more);
            && w.joins == [] && {2, 3} <= w.info.Keys && w.info[3].place == Pending
            && EventOk(w, Closed(2)) && Step(w, Closed(2)).info[3].place == Alone
  {
    SecondGetTakesFirst(id);
    RefusedThenPost(id);
  }

  /** A second GET has the first one in hand. */
  function TwoGets(id: TunnelId): World {
    World(map[1 := Info(Some(id), GET, true, Taken(2), 0), 2 := Info(Some(id), GET, true, Taking(1), 0)],
          map[], [])
  }

  lemma SecondGetTakesFirst(id: TunnelId)
    ensures var start := [Attach(1, Some(id)), Begin(1, GET), Attach(2, Some(id)), Begin(2, GET)];
            RunOk(EMPTY_WORLD, start) && Run(EMPTY_WORLD, start) == TwoGets(id)
  {
    var i := Some(id);
    var w1 := Step(EMPTY_WORLD, Attach(1, i));
    var w2 := Step(w1, Begin(1, GET));
    assert w2 == World(map[1 := Info(i, GET, true, Pending, 0)], map[id := 1], []);
    var w3 := Step(w2, Attach(2, i));
    var w4 := Step(w3, Begin(2, GET));
    assert w4.info == TwoGets(id).info && w4.table == map[];
    Chain(w3, Begin(2, GET), []);
    Chain(w2, Attach(2, i), [Begin(2, GET)]);
    Chain(w1, Begin(1, GET), [Attach(2, i), Begin(2, GET)]);
    Chain(EMPTY_WORLD, Attach(1, i), [Begin(1, GET), Attach(2, i), Begin(2, GET)]);
  }

  lemma RefusedThenPost(id: TunnelId)
    ensures var more := [Finish(2), Attach(3, Some(id)), Begin(3, POST)];
            && RunOk(TwoGets(id), more)
            && var w := Run(TwoGets(id), more);
            && w.joins == [] && {2, 3} <= w.info.Keys && w.info[3].place == Pending
            && EventOk(w, Closed(2)) && Step(w, Closed(2)).info[3].place == Alone
  {
    var i := Some(id);
    var alone := Info(i, GET, true, Alone, 0);
    var w5 := Step(TwoGets(id), Finish(2));
    assert w5 == World(map[1 := alone, 2 := alone], map[], []);
    var w6 := Step(w5, Attach(3, i));
    var w7 := Step(w6, Begin(3, POST));
    assert w7 == World(map[1 := alone, 2 := alone, 3 := Info(i, POST, true, Pending, 0)], map[id := 3], []);
    Chain(w6, Begin(3, POST), []);
    Chain(w5, Attach(3, i), [Begin(3, POST)]);
    Chain(TwoGets(id), Finish(2), [Attach(3, i), Begin(3, POST)]);
  }

  lemma Chain(w: World, e: Event, es: seq<Event>)
    requires EventOk(w, e) && RunOk(Step(w, e), es)
    ensures RunOk(w, [e] + es) && Run(w, [e] + es) == Run(Step(w, e), es)
  {
    assert ([e] + es)[1..] == es;
  }

  // ------------------------------------------------------------ what each step brings about

  /** Nobody but these changes. */
  ghost predicate OnlyChanges(w: World, v: World, changed: set<ClientId>) {
    w.info.Keys == v.info.Keys && forall d :: d in w.info && d !in changed ==> v.info[d] == w.info[d]
  }

  /** An owner that lost its tunnel waits for a partner again if its id is free, and is alone
      otherwise; the entry of somebody else stays. */
  lemma LostWaitsAgain(w: World, c: ClientId)
    requires EventOk(w, Lost(c))
    ensures var v, id := Step(w, Lost(c)), w.info[c].tunnelId;
            && OnlyChanges(w, v, {c}) && v.joins == w.joins
            && v.info[c].tstate == w.info[c].tstate && v.info[c].tunnelId == id
            && v.info[c].losses == w.info[c].losses + 1
            && (if id.Some? && id.value !in w.table
                then v.info[c].place == Pending && v.table == w.table[id.value := c]
                else v.info[c].place == Alone && v.table == w.table)
  {
  }

  /** A new half takes the half that waits under its id out of the table, or waits there
      itself; without an id it stays alone. */
  lemma BeginTakesOrWaits(w: World, c: ClientId, half: TunnelState)
    requires Invariant(w) && EventOk(w, Begin(c, half))
    ensures var v, id := Step(w, Begin(c, half)), w.info[c].tunnelId;
            && v.joins == w.joins && v.info[c].tstate == half && v.info[c].tunnelId == id
            && (id.None? ==> v.info[c].place == Alone && v.table == w.table && OnlyChanges(w, v, {c}))
            && (id.Some? && id.value !in w.table ==>
                  v.info[c].place == Pending && v.table == w.table[id.value := c] && OnlyChanges(w, v, {c}))
            && (id.Some? && id.value in w.table ==>
                  var o := w.table[id.value];
                  && v.info[c].place == Taking(o) && v.info[o] == w.info[o].(place := Taken(c))
                  && v.table == w.table - {id.value} && OnlyChanges(w, v, {c, o}))
  {
    var id := w.info[c].tunnelId;
    if id.Some? && id.value in w.table {
      assert EntryOk(w, id.value);
    }
  }

  /** The half in hand is joined exactly if it still has a watch and is of the other kind: it
      then owns the tunnel. Otherwise both halves are alone. */
  lemma FinishJoinsExactly(w: World, c: ClientId)
    requires Invariant(w) && EventOk(w, Finish(c))
    ensures var v, o := Step(w, Finish(c)), w.info[c].place.half;
            && o in w.info && v.table == w.table && OnlyChanges(w, v, {c, o})
            && (if w.info[o].hasWatch && w.info[o].tstate != w.info[c].tstate
                then && v.info[o].place == Owner && v.info[c].place == Spent && !v.info[c].hasWatch
                     && |v.joins| == |w.joins| + 1 && v.joins[..|w.joins|] == w.joins
                     && v.joins[|w.joins|].older == o && v.joins[|w.joins|].newer == c
                else v.info[o].place == Alone && v.info[c].place == Alone && v.joins == w.joins)
  {
    assert PlaceOk(w, c);
  }

  /** A half that waits under an id with a live watch is joined by the next half of the other
      kind with that id, unless its watch goes while it is in hand. */
  lemma HalvesJoin(w: World, o: ClientId, c: ClientId, half: TunnelState, gone: bool)
    requires Invariant(w) && o in w.info && w.info[o].place == Pending && w.info[o].hasWatch
    requires EventOk(w, Begin(c, half)) && w.info[c].tunnelId == w.info[o].tunnelId && half != w.info[o].tstate
    ensures var v := Step(w, Begin(c, half));
            && v.info[c].place == Taking(o) && EventOk(v, WatchGone(o))
            && var u := if gone then Step(v, WatchGone(o)) else v;
            && EventOk(u, Finish(c))
            && var end := Step(u, Finish(c));
            if gone then end.joins == w.joins && end.info[o].place == Alone
            else |end.joins| == |w.joins| + 1 && end.info[o].place == Owner
  {
    assert PlaceOk(w, o);
    var v := Step(w, Begin(c, half));
    BeginTakesOrWaits(w, c, half);
    StepKeepsInvariant(w, Begin(c, half));
    StepKeepsInvariant(v, WatchGone(o));
    FinishJoinsExactly(if gone then Step(v, WatchGone(o)) else v, c);
  }

  /** After closing, nobody waits under the id of the client, and whoever did is alone. */
  lemma CloseClearsItsId(w: World, c: ClientId)
    requires Invariant(w) && c in w.info
    ensures var v, id := Step(w, Closed(c)), w.info[c].tunnelId;
            && v.joins == w.joins
            && (id.Some? && id.value in w.table ==>
                  && v.table == w.table - {id.value}
                  && v.info[w.table[id.value]].place == Alone && OnlyChanges(w, v, {w.table[id.value]}))
            && (id.None? || id.value !in w.table ==> v == w)
  {
    var id := w.info[c].tunnelId;
    if id.Some? && id.value in w.table {
      assert EntryOk(w, id.value);
    }
  }

  // ------------------------------------------------------------------------ the code

  datatype Status = OK | BAD_REQUEST | SERVICE_UNAVAILABLE

  class Client {
    const cid: ClientId
    const tunnelId: Option<TunnelId>
    var tstate: TunnelState
    var hasWatch: bool

    constructor (cid: ClientId, tunnelId: Option<TunnelId>)
      ensures this.cid == cid && this.tunnelId == tunnelId && tstate == UNKNOWN && hasWatch
    {
      this.cid, this.tunnelId := cid, tunnelId;
      tstate, hasWatch := UNKNOWN, true;
    }

    ghost predicate Shows(i: Info)
      reads this
    {
      tunnelId == i.tunnelId && tstate == i.tstate && hasWatch == i.hasWatch
    }
  }

  /** The table of pending tunnels, shared by all clients. `world` is what its calls so
      far add up to; the properties of runs above are about it. */
  class TunnelTable {
    var tunnels: map<TunnelId, Client>
    ghost var clients: map<ClientId, Client>
    ghost var world: World

    ghost predicate Valid()
      reads this, clients.Values
    {
      && clients.Keys == world.info.Keys
      && (forall c :: c in clients ==> clients[c].cid == c && clients[c].Shows(world.info[c]))
      && tunnels.Keys == world.table.Keys
      && (forall id :: id in tunnels ==>
            world.table[id] in clients && tunnels[id] == clients[world.table[id]])
    }

    ghost predicate Has(client: Client)
      reads this
    {
      client.cid in clients && clients[client.cid] == client
    }

    constructor ()
      ensures Valid() && world == EMPTY_WORLD && clients == map[]
    {
      tunnels, clients, world := map[], map[], EMPTY_WORLD;
    }

    /** A new connection. */
    method AttachClient(cid: ClientId, tunnelId: Option<TunnelId>) returns (client: Client)
      requires Valid() && EventOk(world, Attach(cid, tunnelId))
      modifies this
      ensures Valid() && Has(client) && fresh(client)
      ensures world == Step(old(world), Attach(cid, tunnelId))
    {
      client := new Client(cid, tunnelId);
      clients := clients[cid := client];
      world := Step(world, Attach(cid, tunnelId));
    }

    /** `remember_tunnel`, and what its result means. */
    method RememberTunnel(client: Client) returns (remembered: bool)
      requires Valid() && Has(client) && EventOk(world, Lost(client.cid))
      modifies this
      ensures Valid() && world == Step(old(world), Lost(client.cid)) && clients == old(clients)
      ensures remembered <==> world.info[client.cid].place == Pending
      ensures remembered <==> client.tunnelId.Some? && client.tunnelId.value !in old(tunnels)
      ensures tunnels == if remembered then old(tunnels)[client.tunnelId.value := client] else old(tunnels)
    {
      ghost var after := Step(world, Lost(client.cid));
      remembered := client.tunnelId.Some? && client.tunnelId.value !in tunnels;
      if remembered {
        tunnels := tunnels[client.tunnelId.value := client];
      }
      world := after;
    }

    method SetTunnelState(client: Client, half: TunnelState)
      requires Valid() && Has(client)
      modifies this`world, client
      ensures Valid() && world == SetHalf(old(world), client.cid, half)
    {
      client.tstate := half;
      world := SetHalf(world, client.cid, half);
    }

    /** `handle_tunnel` up to the release of the lock of the table. */
    method ExchangeHalf(client: Client) returns (older: Client?)
      requires Valid() && Has(client)
      modifies this`tunnels, this`world
      ensures Valid() && world == Exchange(old(world), client.cid)
      ensures older != null ==> Has(older) && world.info[client.cid].place == Taking(older.cid)
      ensures older == null ==> !world.info[client.cid].place.Taking?
      // a half that waits is taken out, or else this one waits
      ensures older != null <==> client.tunnelId.Some? && client.tunnelId.value in old(tunnels)
      ensures older != null ==>
                older == old(tunnels)[client.tunnelId.value] && tunnels == old(tunnels) - {client.tunnelId.value}
      ensures older == null ==>
                tunnels == if client.tunnelId.Some? then old(tunnels)[client.tunnelId.value := client] else old(tunnels)
    {
      ghost var after := Exchange(world, client.cid);
      older := null;
      if client.tunnelId.Some? {
        var id := client.tunnelId.value;
        if id !in tunnels {
          tunnels := tunnels[id := client];
        } else {
          older := tunnels[id];
          tunnels := tunnels - {id};
        }
      }
      world := after;
    }

    /** `tunnel_get` and `tunnel_post`, up to the older half, if there is one. */
    method BeginTunnel(client: Client, half: TunnelState) returns (status: Status, older: Client?)
      requires Valid() && Has(client) && EventOk(world, Begin(client.cid, half))
      modifies this, client
      ensures Valid() && world == Step(old(world), Begin(client.cid, half)) && clients == old(clients)
      ensures client.tstate == half && client.hasWatch == old(client.hasWatch)
      ensures status == if client.tunnelId.None? then SERVICE_UNAVAILABLE else OK
      ensures older != null ==> Has(older) && world.info[client.cid].place == Taking(older.cid)
      ensures older == null ==> !world.info[client.cid].place.Taking?
    {
      SetTunnelState(client, half);
      older := ExchangeHalf(client);
      status := if client.tunnelId.None? then SERVICE_UNAVAILABLE else OK;
    }

    /** The rest of `handle_tunnel`, under the lock of the older client. */
    method FinishTunnel(client: Client, older: Client) returns (status: Status)
      requires Valid() && Has(client) && Has(older)
      requires client.cid in world.info && world.info[client.cid].place == Taking(older.cid)
      modifies this, client
      ensures Valid() && world == Step(old(world), Finish(client.cid)) && clients == old(clients)
      ensures status == OK <==> |world.joins| == |old(world).joins| + 1
      ensures status == SERVICE_UNAVAILABLE <==> !old(older.hasWatch)
      ensures status == BAD_REQUEST <==> old(older.hasWatch) && older.tstate == client.tstate
      ensures client.hasWatch == (old(client.hasWatch) && status != OK) && client.tstate == old(client.tstate)
    {
      if !older.hasWatch {
        status := SERVICE_UNAVAILABLE;
        RefuseTunnel(client, older);
      } else if older.tstate == client.tstate {
        status := BAD_REQUEST;
        RefuseTunnel(client, older);
      } else {
        status := OK;
        JoinTunnel(client, older);
      }
    }

    /** Neither client changes, but both are alone from now on. */
    ghost method RefuseTunnel(client: Client, older: Client)
      requires Valid() && Has(client) && Has(older)
      requires client.cid in world.info && world.info[client.cid].place == Taking(older.cid)
      requires !CanJoin(world.info[older.cid], world.info[client.cid])
      modifies this`world
      ensures Valid() && world == FinishStep(old(world), client.cid) && world.joins == old(world).joins
    {
      world := FinishStep(world, client.cid);
    }

    /** The newer client gives its connection, and with it its watch, to the older one. */
    method JoinTunnel(client: Client, older: Client)
      requires Valid() && Has(client) && Has(older)
      requires client.cid in world.info && world.info[client.cid].place == Taking(older.cid)
      requires CanJoin(world.info[older.cid], world.info[client.cid])
      modifies this`world, client
      ensures Valid() && world == FinishStep(old(world), client.cid) && |world.joins| == |old(world).joins| + 1
    {
      assert forall c :: c in clients && clients[c] == client ==> c == client.cid;
      client.hasWatch := false;
      world := FinishStep(world, client.cid);
    }

    /** The part of `closed` and of `gst_rtsp_client_close` that touches the table. */
    method CloseClient(client: Client)
      requires Valid() && Has(client)
      modifies this
      ensures Valid() && world == Step(old(world), Closed(client.cid)) && clients == old(clients)
      ensures tunnels == old(tunnels) - if client.tunnelId.Some? then {client.tunnelId.value} else {}
    {
      ghost var after := Step(world, Closed(client.cid));
      if client.tunnelId.Some? {
        tunnels := tunnels - {client.tunnelId.value};
      }
      world := after;
    }

    /** The watch of a client is destroyed. */
    method WatchDestroyed(client: Client)
      requires Valid() && Has(client)
      modifies this, client
      ensures Valid() && world == Step(old(world), WatchGone(client.cid)) && clients == old(clients)
    {
      ghost var after := Step(world, WatchGone(client.cid));
      client.hasWatch := false;
      world := after;
    }
  }
}
