/**
 The nonces of digest authentication: `default_generate_authenticate_header` hands one out
 with every challenge and sweeps old ones now and then, `default_digest_auth` lets the
 first client that uses a nonce claim it, and `remove_nonce` drops it when that client
 goes away.
 */
module Nonces {
  import opened Basics

  /** 30 seconds of the monotonic clock, in microseconds. */
  const TIMEOUT := 30_000_000

  type ClientId = nat

  datatype Nonce = Nonce(timestamp: int, ip: string, client: Option<ClientId>)

  /** A weak reference that removes a nonce when its client goes away. */
  datatype Hook = Hook(client: ClientId, nonce: string)

  datatype Table = Table(nonces: map<string, Nonce>, lastCheck: int, hooks: seq<Hook>)

  const EMPTY_TABLE := Table(map[], 0, [])

  datatype Event =
    | Challenge(nonce: string, now: int, ip: string)
    | Use(nonce: string, client: ClientId, knownUser: bool)
    | ClientGone(client: ClientId)

  predicate Stale(n: Nonce, now: int) {
    n.client == None && now - n.timestamp >= TIMEOUT
  }

  /** The loop over the hash table removes exactly the stale entries. */
  function Swept(nonces: map<string, Nonce>, now: int): map<string, Nonce> {
    map k | k in nonces && !Stale(nonces[k], now) :: nonces[k]
  }

  predicate Sweeps(t: Table, now: int) {
    t.lastCheck != 0 && now - t.lastCheck >= TIMEOUT
  }

  function ChallengeStep(t: Table, nonce: string, now: int, ip: string): Table {
    var issued := t.nonces[nonce := Nonce(now, ip, None)];
    if Sweeps(t, now) then t.(nonces := Swept(issued, now), lastCheck := now)
    else t.(nonces := issued, lastCheck := if t.lastCheck == 0 then now else t.lastCheck)
  }

  /** A nonce is claimed at its first use with a known user name, whatever comes of it. */
  function UseStep(t: Table, nonce: string, client: ClientId, knownUser: bool): Table {
    if knownUser && nonce in t.nonces && t.nonces[nonce].client == None then
      t.(nonces := t.nonces[nonce := t.nonces[nonce].(client := Some(client))],
         hooks := t.hooks + [Hook(client, nonce)])
    else t
  }

  /** The nonces that the hooks of a client name. */
  ghost function HookedBy(hooks: seq<Hook>, client: ClientId): set<string> {
    set h | h in hooks && h.client == client :: h.nonce
  }

  function HooksWithout(hooks: seq<Hook>, client: ClientId): (r: seq<Hook>)
    ensures forall h :: h in r <==> h in hooks && h.client != client
  {
    if hooks == [] then []
    else (if hooks[0].client == client then [] else [hooks[0]]) + HooksWithout(hooks[1..], client)
  }

  ghost function GoneStep(t: Table, client: ClientId): Table {
    t.(nonces := t.nonces - HookedBy(t.hooks, client), hooks := HooksWithout(t.hooks, client))
  }

  ghost function Step(t: Table, e: Event): Table {
    match e
    case Challenge(nonce, now, ip) => ChallengeStep(t, nonce, now, ip)
    case Use(nonce, client, knownUser) => UseStep(t, nonce, client, knownUser)
    case ClientGone(client) => GoneStep(t, client)
  }

  /** The random nonce is new, and the clock is positive and does not go back. `now` is
      the time of the last challenge before. */
  ghost predicate EventOk(t: Table, now: int, e: Event) {
    e.Challenge? ==> e.nonce !in t.nonces && e.now > 0 && e.now >= now
  }

  function Clock(now: int, e: Event): int { if e.Challenge? then e.now else now }

  // --------------------------------------------------------------------- properties

  /** Everything about the table at a time when the clock shows `now`. */
  ghost predicate Invariant(t: Table, now: int) {
    && (forall k :: k in t.nonces && t.nonces[k].client == None ==>
          t.lastCheck - TIMEOUT < t.nonces[k].timestamp <= now)
    && (t.lastCheck == 0 ==> t.nonces == map[] && t.hooks == [] && now == 0)
    && (t.lastCheck != 0 ==> 0 < t.lastCheck <= now)
    // each claimed nonce has one hook, and each hook names a nonce that its client claimed
    && (forall h :: h in t.hooks ==> h.nonce in t.nonces && t.nonces[h.nonce].client == Some(h.client))
    && (forall k :: k in t.nonces && t.nonces[k].client.Some? ==>
          Hook(t.nonces[k].client.value, k) in t.hooks)
    && NoDuplicates(t.hooks)
  }

  /** Right after a challenge, every unclaimed nonce is younger than 60 seconds, and
      younger than 30 seconds if that challenge swept. */
  ghost predicate Young(t: Table, now: int, seconds: int) {
    forall k :: k in t.nonces && t.nonces[k].client == None ==> now - t.nonces[k].timestamp < seconds * 1_000_000
  }

  lemma {:induction false} HooksWithoutDistinct(hooks: seq<Hook>, client: ClientId)
    requires NoDuplicates(hooks)
    ensures NoDuplicates(HooksWithout(hooks, client))
  {
    if hooks != [] {
      HooksWithoutDistinct(hooks[1..], client);
      assert hooks[0] !in hooks[1..];
    }
  }

  lemma StepKeepsInvariant(t: Table, now: int, e: Event)
    requires Invariant(t, now) && EventOk(t, now, e)
    ensures Invariant(Step(t, e), Clock(now, e))
  {
    match e
    case Challenge(nonce, time, ip) =>
    case Use(nonce, client, knownUser) =>
      UseKeeps(t, now, nonce, client, knownUser);
    case ClientGone(client) =>
      GoneKeeps(t, now, client);
  }

  lemma GoneKeeps(t: Table, now: int, client: ClientId)
    requires Invariant(t, now)
    ensures Invariant(GoneStep(t, client), now)
  {
    var v := GoneStep(t, client);
    HooksWithoutDistinct(t.hooks, client);
    forall k | k in v.nonces && v.nonces[k].client.Some?
      ensures Hook(v.nonces[k].client.value, k) in v.hooks
    {
      var h := Hook(t.nonces[k].client.value, k);
      assert h in t.hooks;
      assert h.client == client ==> h.nonce in HookedBy(t.hooks, client);
    }
    forall h | h in v.hooks
      ensures h.nonce in v.nonces && v.nonces[h.nonce].client == Some(h.client)
    {
      assert h in t.hooks && h.client != client;
      forall g | g in t.hooks && g.client == client ensures g.nonce != h.nonce {
      }
    }
  }

  lemma UseKeeps(t: Table, now: int, nonce: string, client: ClientId, knownUser: bool)
    requires Invariant(t, now)
    ensures Invariant(UseStep(t, nonce, client, knownUser), now)
  {
    var v := UseStep(t, nonce, client, knownUser);
    if v != t {
      assert v.hooks[|t.hooks|] == Hook(client, nonce);
      assert Hook(client, nonce) !in t.hooks;
    }
  }

  /** The age bound after one challenge, and that it hands out its nonce. */
  lemma ChallengeBoundsAge(t: Table, before: int, e: Event)
    requires Invariant(t, before) && EventOk(t, before, e) && e.Challenge?
    ensures Young(Step(t, e), e.now, 60)
    ensures Sweeps(t, e.now) ==> Young(Step(t, e), e.now, 30)
    ensures e.nonce in Step(t, e).nonces
  {
    StepKeepsInvariant(t, before, e);
  }

  /** The nonce of a challenge is there when it is handed out, with the time and the address of
      the challenge, and unclaimed. */
  lemma ChallengeIssues(t: Table, before: int, e: Event)
    requires EventOk(t, before, e) && e.Challenge?
    ensures var v := Step(t, e);
            && e.nonce in v.nonces && v.nonces[e.nonce] == Nonce(e.now, e.ip, None) && v.hooks == t.hooks
            && (forall k :: k in v.nonces && k != e.nonce ==> k in t.nonces && v.nonces[k] == t.nonces[k])
            && v.lastCheck == (if t.lastCheck == 0 || e.now - t.lastCheck >= TIMEOUT then e.now else t.lastCheck)
  {
  }

  /** The first client that uses a nonce with a known user name has it from then on; any other
      use, and any use of an unknown or claimed nonce, changes nothing. */
  lemma FirstUseClaims(t: Table, e: Event)
    requires e.Use?
    ensures var v := Step(t, e);
            if e.knownUser && e.nonce in t.nonces && t.nonces[e.nonce].client == None
            then && v.nonces == t.nonces[e.nonce := t.nonces[e.nonce].(client := Some(e.client))]
                 && v.hooks == t.hooks + [Hook(e.client, e.nonce)] && v.lastCheck == t.lastCheck
            else v == t
  {
  }

  /** No challenge drops a claimed nonce; it leaves only when its client goes away, and
      until then it belongs to that client. */
  lemma ClaimedStaysUntilGone(t: Table, now: int, e: Event, k: string)
    requires Invariant(t, now) && EventOk(t, now, e)
    requires k in t.nonces && t.nonces[k].client.Some?
    ensures (k in Step(t, e).nonces && Step(t, e).nonces[k] == t.nonces[k])
       <==> e != ClientGone(t.nonces[k].client.value)
  {
    var owner := t.nonces[k].client.value;
    assert Hook(owner, k) in t.hooks;
    if e.ClientGone? {
      if e.client == owner {
        assert Hook(owner, k).nonce in HookedBy(t.hooks, owner);
      } else {
        forall h | h in t.hooks && h.client == e.client ensures h.nonce != k {
        }
      }
    }
  }

  /** An unclaimed nonce leaves only by a sweep that finds it 30 seconds old, or is claimed. */
  lemma UnclaimedLeavesStale(t: Table, now: int, e: Event, k: string)
    requires Invariant(t, now) && EventOk(t, now, e)
    requires k in t.nonces && t.nonces[k].client == None
    ensures k !in Step(t, e).nonces <==>
              e.Challenge? && Sweeps(t, e.now) && e.now - t.nonces[k].timestamp >= TIMEOUT
  {
    if e.ClientGone? {
      forall h | h in t.hooks && h.client == e.client ensures h.nonce != k {
      }
    }
  }

  ghost predicate RunOk(t: Table, now: int, es: seq<Event>)
    decreases |es|
  {
    es == [] || (EventOk(t, now, es[0]) && RunOk(Step(t, es[0]), Clock(now, es[0]), es[1..]))
  }

  ghost function Run(t: Table, es: seq<Event>): Table
    decreases |es|
  {
    if es == [] then t else Run(Step(t, es[0]), es[1..])
  }

  ghost function ClockAfter(now: int, es: seq<Event>): int
    decreases |es|
  {
    if es == [] then now else ClockAfter(Clock(now, es[0]), es[1..])
  }

  lemma {:induction false} RunKeepsInvariant(t: Table, now: int, es: seq<Event>)
    requires Invariant(t, now) && RunOk(t, now, es)
    ensures Invariant(Run(t, es), ClockAfter(now, es))
    decreases |es|
  {
    if es != [] {
      StepKeepsInvariant(t, now, es[0]);
      RunKeepsInvariant(Step(t, es[0]), Clock(now, es[0]), es[1..]);
    }
  }

  /** In every run, right after a challenge: the age bound, 30 seconds after a sweep. */
  lemma RunBoundsAge(es: seq<Event>, e: Event)
    requires RunOk(EMPTY_TABLE, 0, es) && e.Challenge?
    requires EventOk(Run(EMPTY_TABLE, es), ClockAfter(0, es), e)
    ensures var t := Run(EMPTY_TABLE, es);
            && Young(Step(t, e), e.now, 60)
            && (Sweeps(t, e.now) ==> Young(Step(t, e), e.now, 30))
  {
    RunKeepsInvariant(EMPTY_TABLE, 0, es);
    ChallengeBoundsAge(Run(EMPTY_TABLE, es), ClockAfter(0, es), e);
  }

  /** The bound is sharp: without a sweep, a nonce can stay for almost 60 seconds. */
  lemma AgeBoundIsSharp(a: string, b: string, c: string, ip: string)
    requires a != b && b != c && a != c
    ensures var es := [Challenge(a, 1, ip), Challenge(b, 2, ip), Challenge(c, 30_000_001, ip)];
            && RunOk(EMPTY_TABLE, 0, es)
            && var t := Run(EMPTY_TABLE, es);
            b in t.nonces && forall d :: d !in t.nonces ==>
              var last := Challenge(d, 60_000_000, ip);
              && EventOk(t, ClockAfter(0, es), last) && b in Step(t, last).nonces
              && last.now - Step(t, last).nonces[b].timestamp == 59_999_998
  {
    var e1, e2, e3 := Challenge(a, 1, ip), Challenge(b, 2, ip), Challenge(c, 30_000_001, ip);
    var t1 := Step(EMPTY_TABLE, e1);
    var t2 := Step(t1, e2);
    var t3 := Step(t2, e3);
    assert t2.lastCheck == 1 && t2.nonces.Keys == {a, b} && t2.nonces[b].timestamp == 2;
    assert t3.lastCheck == 30_000_001 && t3.nonces.Keys == {b, c} && t3.nonces[b] == t2.nonces[b];
    Chain(t2, 2, e3, []);
    Chain(t1, 1, e2, [e3]);
    Chain(EMPTY_TABLE, 0, e1, [e2, e3]);
    assert [e1] + [e2, e3] == [e1, e2, e3] && [e2] + [e3] == [e2, e3] && [e3] + [] == [e3];
  }

  lemma Chain(t: Table, now: int, e: Event, es: seq<Event>)
    requires EventOk(t, now, e) && RunOk(Step(t, e), Clock(now, e), es)
    ensures RunOk(t, now, [e] + es) && Run(t, [e] + es) == Run(Step(t, e), es)
    ensures ClockAfter(now, [e] + es) == ClockAfter(Clock(now, e), es)
  {
    assert ([e] + es)[1..] == es;
  }

  // ------------------------------------------------------------------------ the code

  /** A parameter of an Authorization header; it may have no value. */
  datatype Param = Param(name: string, value: Option<string>)

  predicate Gives(p: Param, name: string) { p.name == name && p.value.Some? }

  /** The first value that is given for a name. */
  function FirstValue(params: seq<Param>, name: string): (v: Option<string>)
    ensures v.Some? <==> exists i :: 0 <= i < |params| && Gives(params[i], name)
  {
    if params == [] then None
    else if params[0].name == name && params[0].value.Some? then params[0].value
    else FirstValue(params[1..], name)
  }

  /** The parameters that digest authentication needs, all of them. */
  datatype Digest = Digest(realm: string, user: string, nonce: string, response: string, uri: string)

  function DigestOf(params: seq<Param>): Option<Digest> {
    var realm, user, nonce := FirstValue(params, "realm"), FirstValue(params, "username"), FirstValue(params, "nonce");
    var response, uri := FirstValue(params, "response"), FirstValue(params, "uri");
    if realm.Some? && user.Some? && nonce.Some? && response.Some? && uri.Some?
    then Some(Digest(realm.value, user.value, nonce.value, response.value, uri.value)) else None
  }

  /** `v` is what the first parameter with this name and a value says. */
  ghost predicate SaysFirst(params: seq<Param>, name: string, v: string) {
    exists i :: 0 <= i < |params| && Gives(params[i], name) && params[i].value == Some(v)
                && forall j :: 0 <= j < i ==> !Gives(params[j], name)
  }

  lemma {:induction false} FirstValueIsFirst(params: seq<Param>, name: string, v: string)
    ensures FirstValue(params, name) == Some(v) <==> SaysFirst(params, name, v)
  {
    if params != [] && !Gives(params[0], name) {
      FirstValueIsFirst(params[1..], name, v);
      if SaysFirst(params[1..], name, v) {
        var i :| 0 <= i < |params[1..]| && Gives(params[1..][i], name) && params[1..][i].value == Some(v)
                 && forall j :: 0 <= j < i ==> !Gives(params[1..][j], name);
        assert params[i + 1] == params[1..][i];
        forall j | 0 <= j < i + 1 ensures !Gives(params[j], name) {
          assert j > 0 ==> params[j] == params[1..][j - 1];
        }
      }
      if SaysFirst(params, name, v) {
        var i :| 0 <= i < |params| && Gives(params[i], name) && params[i].value == Some(v)
                 && forall j :: 0 <= j < i ==> !Gives(params[j], name);
        assert params[1..][i - 1] == params[i];
        assert forall j :: 0 <= j < i - 1 ==> params[1..][j] == params[j + 1];
      }
    } else if params != [] {
      assert Gives(params[0], name);
    }
  }

  /** The digest of a header holds, for each of the five names, the value that is given for it
      first; there is one exactly if each of them has a value. */
  lemma DigestReadsNames(params: seq<Param>, d: Digest)
    ensures DigestOf(params) == Some(d) <==>
              && SaysFirst(params, "realm", d.realm) && SaysFirst(params, "username", d.user)
              && SaysFirst(params, "nonce", d.nonce) && SaysFirst(params, "response", d.response)
              && SaysFirst(params, "uri", d.uri)
  {
    FirstValueIsFirst(params, "realm", d.realm);
    FirstValueIsFirst(params, "username", d.user);
    FirstValueIsFirst(params, "nonce", d.nonce);
    FirstValueIsFirst(params, "response", d.response);
    FirstValueIsFirst(params, "uri", d.uri);
  }

  /** A user: the password, or its md5 when the user was loaded from a file. */
  datatype User = User(md5: Option<string>, pass: string, token: nat)

  /** The two digest functions of the RTSP library. */
  datatype Library = Library(fromMd5: (string, string, string, string) -> Option<string>,
                             fromPass: (string, string, string, string, string, string) -> Option<string>)

  /** The response that a client with the right password sends for a request. */
  function Expected(lib: Library, verb: string, d: Digest, u: User): Option<string> {
    if u.md5.Some? then lib.fromMd5(verb, u.md5.value, d.uri, d.nonce)
    else lib.fromPass(verb, d.realm, d.user, u.pass, d.uri, d.nonce)
  }

  /** The response is what the library computes for the method and the header, from the md5 of
      a loaded user or else from the password. */
  ghost predicate RightResponse(lib: Library, verb: string, d: Digest, u: User) {
    && (u.md5.Some? ==> lib.fromMd5(verb, u.md5.value, d.uri, d.nonce) == Some(d.response))
    && (u.md5.None? ==> lib.fromPass(verb, d.realm, d.user, u.pass, d.uri, d.nonce) == Some(d.response))
  }

  class NonceTable {
    var nonces: map<string, Nonce>
    var lastNonceCheck: int
    var digest: map<string, User>
    var hooks: seq<Hook>

    ghost function View(): Table
      reads this
    {
      Table(nonces, lastNonceCheck, hooks)
    }

    constructor ()
      ensures View() == EMPTY_TABLE && digest == map[]
    {
      nonces, lastNonceCheck, digest, hooks := map[], 0, map[], [];
    }

    /** The nonce part of `default_generate_authenticate_header`. */
    method GenerateNonce(nonceValue: string, now: int, ip: string)
      modifies this
      ensures View() == ChallengeStep(old(View()), nonceValue, now, ip) && digest == old(digest)
      ensures nonceValue in nonces && nonces[nonceValue] == Nonce(now, ip, None)
    {
      nonces := nonces[nonceValue := Nonce(now, ip, None)];
      if lastNonceCheck == 0 {
        lastNonceCheck := now;
      }
      if now - lastNonceCheck >= TIMEOUT {
        Sweep(now);
        lastNonceCheck := now;
      }
    }

    /** The iteration over the hash table, in no particular order. */
    method Sweep(now: int)
      modifies `nonces
      ensures nonces == Swept(old(nonces), now)
    {
      var todo := nonces.Keys;
      while todo != {}
        invariant nonces.Keys <= old(nonces).Keys && todo <= nonces.Keys
        invariant forall k :: k in nonces ==> nonces[k] == old(nonces)[k]
        invariant forall k :: k in nonces && k !in todo ==> !Stale(nonces[k], now)
        invariant forall k :: k in old(nonces) && k !in nonces ==> Stale(old(nonces)[k], now)
        decreases todo
      {
        var k :| k in todo;
        todo := todo - {k};
        var tmp := nonces[k];
        if tmp.client == None && now - tmp.timestamp >= TIMEOUT {
          nonces := nonces - {k};
        }
      }
    }

    /** The loop over the parameters: the first value for each name is taken. */
    method ReadParams(params: seq<Param>) returns (d: Option<Digest>)
      ensures d == DigestOf(params)
    {
      var realm, user, nonce: Option<string> := None, None, None;
      var response, uri: Option<string> := None, None;
      var i := 0;
      while i < |params|
        invariant i <= |params|
        invariant FirstOr(realm, params[i..], "realm") == FirstValue(params, "realm")
        invariant FirstOr(user, params[i..], "username") == FirstValue(params, "username")
        invariant FirstOr(nonce, params[i..], "nonce") == FirstValue(params, "nonce")
        invariant FirstOr(response, params[i..], "response") == FirstValue(params, "response")
        invariant FirstOr(uri, params[i..], "uri") == FirstValue(params, "uri")
      {
        assert params[i..][0] == params[i] && params[i..][1..] == params[i + 1..];
        var p := params[i];
        if realm.None? && p.name == "realm" && p.value.Some? {
          realm := p.value;
        } else if user.None? && p.name == "username" && p.value.Some? {
          user := p.value;
        } else if nonce.None? && p.name == "nonce" && p.value.Some? {
          nonce := p.value;
        } else if response.None? && p.name == "response" && p.value.Some? {
          response := p.value;
        } else if uri.None? && p.name == "uri" && p.value.Some? {
          uri := p.value;
        }
        i := i + 1;
      }
      if realm.None? || user.None? || nonce.None? || response.None? || uri.None? {
        return None;
      }
      d := Some(Digest(realm.value, user.value, nonce.value, response.value, uri.value));
    }

    ghost function FirstOr(found: Option<string>, rest: seq<Param>, name: string): Option<string> {
      if found.Some? then found else FirstValue(rest, name)
    }

    /** `default_digest_auth`: the token of the user, if the parameters are accepted. */
    method DigestAuth(params: Option<seq<Param>>, verb: string, ip: string, client: ClientId, lib: Library)
      returns (token: Option<nat>)
      modifies this
      ensures digest == old(digest)
      ensures params.None? || DigestOf(params.value).None? ==> token == None && View() == old(View())
      ensures params.Some? && DigestOf(params.value).Some? ==>
                var d := DigestOf(params.value).value;
                && View() == UseStep(old(View()), d.nonce, client, d.user in digest)
                && (token.Some? <==>
                      && d.user in digest && d.nonce in old(nonces)
                      && old(nonces)[d.nonce].ip == ip
                      && (old(nonces)[d.nonce].client == None || old(nonces)[d.nonce].client == Some(client))
                      && RightResponse(lib, verb, d, digest[d.user]))
                && (token.Some? ==> token.value == digest[d.user].token)
                // from now on, nobody but this client is accepted with this nonce
                && (token.Some? ==> nonces[d.nonce].client == Some(client))
    {
      token := None;
      if params.None? {
        return;
      }
      var given := ReadParams(params.value);
      if given.None? {
        return;
      }
      var d := given.value;
      if d.user !in digest {
        return;
      }
      if d.nonce !in nonces {
        return;
      }
      var entry := nonces[d.nonce];
      if entry.ip == ip && !(entry.client.Some? && entry.client != Some(client)) {
        var expected := Expected(lib, verb, d, digest[d.user]);
        if expected.Some? && d.response == expected.value {
          token := Some(digest[d.user].token);
        }
      }
      if entry.client == None {
        nonces := nonces[d.nonce := entry.(client := Some(client))];
        hooks := hooks + [Hook(client, d.nonce)];
      }
    }

    /** A client goes away: `remove_nonce` runs for each of its hooks. */
    method ClientFinalized(client: ClientId)
      modifies this
      ensures View() == GoneStep(old(View()), client) && digest == old(digest)
    {
      var i := 0;
      while i < |hooks|
        invariant i <= |hooks| && hooks == old(hooks)
        invariant lastNonceCheck == old(lastNonceCheck) && digest == old(digest)
        invariant nonces == old(nonces) - HookedBy(hooks[..i], client)
      {
        assert hooks[..i + 1] == hooks[..i] + [hooks[i]];
        if hooks[i].client == client {
          nonces := nonces - {hooks[i].nonce};
          assert HookedBy(hooks[..i + 1], client) == HookedBy(hooks[..i], client) + {hooks[i].nonce};
        } else {
          assert HookedBy(hooks[..i + 1], client) == HookedBy(hooks[..i], client);
        }
        i := i + 1;
      }
      assert hooks[..i] == hooks;
      hooks := HooksWithout(hooks, client);
    }
  }
}
