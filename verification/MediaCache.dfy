/**
 The media factory's cache of shared media: `default_gen_key` prints a URL as a key,
 `gst_rtsp_media_factory_construct` reuses what is cached under the key of a URL or
 builds something new, and `media_unprepared` drops what cannot be used again.
 */
module MediaCache {
  import opened Basics

  type Port = n: int | 0 <= n < 0x1_0000
  type MediaId = nat
  type Caller = nat

  datatype Url = Url(port: Port, abspath: string, query: Option<string>)

  // ------------------------------------------------------------------- the keys

  /** The character code of '0'. */
  const ZERO := 48

  function Digit(d: nat): char
    requires d < 10
  {
    (ZERO + d) as char
  }

  predicate IsDigit(c: char) { ZERO <= c as int < ZERO + 10 }

  /** "%u". */
  function Decimal(n: nat): string {
    (if n < 10 then "" else Decimal(n / 10)) + [Digit(n % 10)]
  }

  /** `default_gen_key`. */
  function GenKey(url: Url): string {
    Decimal(url.port) + (url.abspath + if url.query.Some? then "?" + url.query.value else "")
  }

  /** What the URL parser gives: the path is empty or starts with a slash (so not with a
      digit), and the question mark that starts the query is not part of it. */
  predicate Parsed(url: Url) {
    && '?' !in url.abspath
    && (url.abspath == "" || !IsDigit(url.abspath[0]))
  }

  ghost function Value(digits: string): nat
    requires forall c :: c in digits ==> IsDigit(c)
  {
    if digits == "" then 0
    else
      var last := digits[|digits| - 1];
      assert IsDigit(last);
      10 * Value(digits[..|digits| - 1]) + (last as int - ZERO)
  }

  lemma {:induction false} DecimalValue(n: nat)
    ensures forall c :: c in Decimal(n) ==> IsDigit(c)
    ensures Value(Decimal(n)) == n
  {
    var front := if n < 10 then "" else Decimal(n / 10);
    if n >= 10 {
      DecimalValue(n / 10);
    }
    assert Decimal(n)[..|front|] == front;
  }

  /** The leading digits of a key are the port. */
  function DigitRun(s: string): (k: nat)
    ensures k <= |s|
  {
    if s == "" || !IsDigit(s[0]) then 0 else 1 + DigitRun(s[1..])
  }

  lemma {:induction false} DigitRunIs(p: string, rest: string)
    requires forall c :: c in p ==> IsDigit(c)
    requires rest == "" || !IsDigit(rest[0])
    ensures DigitRun(p + rest) == |p|
  {
    if p == "" {
      assert p + rest == rest;
    } else {
      assert (p + rest)[1..] == p[1..] + rest;
      DigitRunIs(p[1..], rest);
    }
  }

  /** The part before the first question mark is the path. */
  function PathRun(s: string): (k: nat)
    ensures k <= |s|
  {
    if s == "" || s[0] == '?' then 0 else 1 + PathRun(s[1..])
  }

  lemma {:induction false} PathRunIs(p: string, rest: string)
    requires '?' !in p && (rest == "" || rest[0] == '?')
    ensures PathRun(p + rest) == |p|
  {
    if p == "" {
      assert p + rest == rest;
    } else {
      assert (p + rest)[1..] == p[1..] + rest;
      PathRunIs(p[1..], rest);
    }
  }

  function QueryPart(url: Url): string { if url.query.Some? then "?" + url.query.value else "" }

  /** A key, read back. */
  lemma KeyReadsBack(url: Url)
    requires Parsed(url)
    ensures var key := GenKey(url);
            var k := DigitRun(key);
            && key[..k] == Decimal(url.port)
            && key[k..] == url.abspath + QueryPart(url)
            && PathRun(key[k..]) == |url.abspath|
            && key[k..][..|url.abspath|] == url.abspath
            && key[k..][|url.abspath|..] == QueryPart(url)
  {
    var rest := url.abspath + QueryPart(url);
    DecimalValue(url.port);
    if url.abspath != "" {
      assert rest[0] == url.abspath[0];
    }
    DigitRunIs(Decimal(url.port), rest);
    PathRunIs(url.abspath, QueryPart(url));
  }

  /** Different URLs have different keys. */
  lemma KeysDoNotCollide(a: Url, b: Url)
    requires Parsed(a) && Parsed(b) && GenKey(a) == GenKey(b)
    ensures a == b
  {
    KeyReadsBack(a);
    KeyReadsBack(b);
    DecimalValue(a.port);
    DecimalValue(b.port);
    assert a.abspath == b.abspath && QueryPart(a) == QueryPart(b);
    if a.query.Some? {
      assert QueryPart(a)[1..] == a.query.value && QueryPart(b)[1..] == b.query.value;
    }
  }

  /** That rests on what the parser promises: with a digit in front of the path, or a
      question mark in it, keys do collide. */
  lemma KeysWouldCollide()
    ensures GenKey(Url(5, "4/x", None)) == GenKey(Url(54, "/x", None))
    ensures GenKey(Url(5, "/x?y", None)) == GenKey(Url(5, "/x", Some("y")))
  {
    assert Decimal(5) == "5";
    assert Decimal(54) == Decimal(5) + "4";
    assert GenKey(Url(5, "4/x", None)) == "54/x" == GenKey(Url(54, "/x", None));
    assert GenKey(Url(5, "/x?y", None)) == "5/x?y" == GenKey(Url(5, "/x", Some("y")));
  }

  // ------------------------------------------------------------- the cache, as a value

  /** A media: what it was built for, and its properties when it was configured. */
  datatype Media = Media(url: Url, shared: bool, reusable: bool)

  /**
   `pending` holds the callers that found a media, but have yet to check, without the
   lock of the cache, whether it can still be shared. `gone` are the media that were
   unprepared and cannot be used again.
   */
  datatype World = World(cache: map<string, MediaId>, built: map<MediaId, Media>,
                         pending: map<Caller, (Url, MediaId)>, gone: set<MediaId>)

  const EMPTY_WORLD := World(map[], map[], map[], {})

  /** What construct makes of a URL: nothing, or a new media. */
  type Made = Option<(MediaId, bool, bool)>

  datatype Event =
    | Miss(url: Url, made: Made)
    | Hit(caller: Caller, hurl: Url)
    | Reuse(rcaller: Caller)
    | Rebuild(bcaller: Caller, bmade: Made)
    | Unprepared(media: MediaId)

  ghost predicate Fresh(w: World, made: Made) {
    made.Some? ==> made.value.0 !in w.built
  }

  ghost predicate EventOk(w: World, e: Event) {
    match e
    case Miss(url, made) => Parsed(url) && GenKey(url) !in w.cache && Fresh(w, made)
    case Hit(c, url) => Parsed(url) && GenKey(url) in w.cache && c !in w.pending
    case Reuse(c) => c in w.pending
    case Rebuild(c, made) => c in w.pending && Fresh(w, made)
    case Unprepared(m) => m in w.built
  }

  /** Build a media; cache it if it is shared. */
  function Build(w: World, url: Url, made: Made): World {
    match made
    case None => w
    case Some((m, shared, reusable)) =>
      w.(built := w.built[m := Media(url, shared, reusable)],
         cache := if shared then w.cache[GenKey(url) := m] else w.cache)
  }

  function Without(cache: map<string, MediaId>, m: MediaId): map<string, MediaId> {
    map k | k in cache && cache[k] != m :: cache[k]
  }

  function Step(w: World, e: Event): World
    requires e.Hit? ==> GenKey(e.hurl) in w.cache
    requires e.Rebuild? ==> e.bcaller in w.pending
    requires e.Unprepared? ==> e.media in w.built
  {
    match e
    case Miss(url, made) => Build(w, url, made)
    case Hit(c, url) => w.(pending := w.pending[c := (url, w.cache[GenKey(url)])])
    case Reuse(c) => w.(pending := w.pending - {c})
    case Rebuild(c, made) => Build(w.(pending := w.pending - {c}), w.pending[c].0, made)
    case Unprepared(m) =>
      if w.built[m].reusable then w
      else w.(cache := Without(w.cache, m), gone := w.gone + {m})
  }

  ghost predicate Invariant(w: World) {
    && (forall k :: k in w.cache ==>
          && w.cache[k] in w.built && w.cache[k] !in w.gone
          && w.built[w.cache[k]].shared && GenKey(w.built[w.cache[k]].url) == k)
    && (forall c :: c in w.pending ==>
          && w.pending[c].1 in w.built && w.built[w.pending[c].1].shared
          && w.built[w.pending[c].1].url == w.pending[c].0)
    && (forall m :: m in w.built ==> Parsed(w.built[m].url))
    && (forall m :: m in w.gone ==> m in w.built && !w.built[m].reusable)
  }

  lemma StepKeepsInvariant(w: World, e: Event)
    requires Invariant(w) && EventOk(w, e)
    ensures Invariant(Step(w, e))
  {
    match e
    case Miss(url, made) => BuildKeeps(w, url, made);
    case Hit(c, url) => KeysDoNotCollide(w.built[w.cache[GenKey(url)]].url, url);
    case Reuse(c) =>
    case Rebuild(c, made) => BuildKeeps(w.(pending := w.pending - {c}), w.pending[c].0, made);
    case Unprepared(m) =>
  }

  lemma BuildKeeps(w: World, url: Url, made: Made)
    requires Invariant(w) && Parsed(url) && Fresh(w, made)
    ensures Invariant(Build(w, url, made))
  {
  }

  ghost predicate RunOk(w: World, es: seq<Event>)
    decreases |es|
  {
    es == [] || (EventOk(w, es[0]) && RunOk(Step(w, es[0]), es[1..]))
  }

  ghost function Run(w: World, es: seq<Event>): World
    requires RunOk(w, es)
    decreases |es|
  {
    if es == [] then w else Run(Step(w, es[0]), es[1..])
  }

  lemma {:induction false} RunKeepsInvariant(w: World, es: seq<Event>)
    requires Invariant(w) && RunOk(w, es)
    ensures Invariant(Run(w, es))
    decreases |es|
  {
    if es != [] {
      StepKeepsInvariant(w, es[0]);
      RunKeepsInvariant(Step(w, es[0]), es[1..]);
    }
  }

  /**
   In every interleaving: what a caller is handed from the cache is a shared media that
   was built for the very URL of the caller; every media is cached under one key at most;
   and a media that was unprepared and is not reusable is under no key, nor ever will be.
   */
  lemma RunNeverConfuses(es: seq<Event>, c: Caller, j: string, k: string, m: MediaId)
    requires RunOk(EMPTY_WORLD, es)
    ensures var w := Run(EMPTY_WORLD, es);
            && (c in w.pending ==>
                  && w.pending[c].1 in w.built
                  && w.built[w.pending[c].1].url == w.pending[c].0 && w.built[w.pending[c].1].shared)
            && (j in w.cache && k in w.cache && w.cache[j] == w.cache[k] ==> j == k)
            && (m in w.gone ==> m !in w.cache.Values)
  {
    RunKeepsInvariant(EMPTY_WORLD, es);
    var w := Run(EMPTY_WORLD, es);
  }

  /** Unpreparing a media that is not reusable removes all its keys, and no others. */
  lemma UnpreparedIsGone(w: World, m: MediaId)
    requires Invariant(w) && m in w.built
    ensures m in Step(w, Unprepared(m)).gone <==> m in w.gone || !w.built[m].reusable
    ensures !w.built[m].reusable ==> m !in Step(w, Unprepared(m)).cache.Values
    ensures forall k :: k in w.cache && w.cache[k] != m ==>
              k in Step(w, Unprepared(m)).cache && Step(w, Unprepared(m)).cache[k] == w.cache[k]
  {
  }

  // ------------------------------------------------ what is cached, from the history

  /** The URL and the media of a step that builds one, if any. */
  function Built(w: World, e: Event): Option<(Url, MediaId, bool, bool)> {
    match e
    case Miss(url, Some((m, shared, reusable))) => Some((url, m, shared, reusable))
    case Rebuild(c, Some((m, shared, reusable))) =>
      if c in w.pending then Some((w.pending[c].0, m, shared, reusable)) else None
    case _ => None
  }

  /** A step that builds a shared media caches it under the URL it is for, and no step
      caches anything else; whether it takes something out is another matter. */
  lemma SharedIsCached(w: World, e: Event, k: string)
    requires Invariant(w) && EventOk(w, e) && !e.Unprepared?
    ensures var b, v := Built(w, e), Step(w, e);
            if b.Some? && b.value.2 && GenKey(b.value.0) == k
            then k in v.cache && v.cache[k] == b.value.1
            else (k in v.cache <==> k in w.cache) && (k in w.cache ==> v.cache[k] == w.cache[k])
    ensures Built(w, e).Some? ==>
              var (url, m, shared, reusable) := Built(w, e).value;
              m in Step(w, e).built && Step(w, e).built[m] == Media(url, shared, reusable)
    ensures forall m :: m in w.built ==> m in Step(w, e).built && Step(w, e).built[m] == w.built[m]
  {
  }

  /** Who waits for what: a hit notes the caller, its URL and the cached media, and the caller
      goes on when that is used or replaced. */
  lemma HitWaits(w: World, e: Event, c: Caller)
    requires EventOk(w, e)
    ensures var v := Step(w, e);
            if e.Hit? && e.caller == c then c in v.pending && v.pending[c] == (e.hurl, w.cache[GenKey(e.hurl)])
            else if e == Reuse(c) || (e.Rebuild? && e.bcaller == c) then c !in v.pending
            else (c in v.pending <==> c in w.pending) && (c in w.pending ==> v.pending[c] == w.pending[c])
  {
  }

  /** The latest shared media for a URL, and whether it is reusable, after one step: a newer
      one replaces it, and it is gone when it is unprepared and not reusable. */
  function NextShared(w: World, e: Event, url: Url, now: Option<(MediaId, bool)>): Option<(MediaId, bool)> {
    var b := Built(w, e);
    if b.Some? && b.value.0 == url && b.value.2 then Some((b.value.1, b.value.3))
    else if now.Some? && e == Unprepared(now.value.0) && !now.value.1 then None
    else now
  }

  /** The same after a run. */
  ghost function LastShared(w: World, es: seq<Event>, url: Url, now: Option<(MediaId, bool)>): Option<(MediaId, bool)>
    requires RunOk(w, es)
    decreases |es|
  {
    if es == [] then now else LastShared(Step(w, es[0]), es[1..], url, NextShared(w, es[0], url, now))
  }

  /** The cache answers for a URL with this media, or not at all. */
  ghost predicate Answers(w: World, url: Url, now: Option<(MediaId, bool)>) {
    && (GenKey(url) in w.cache <==> now.Some?)
    && (now.Some? ==>
          && w.cache[GenKey(url)] == now.value.0
          && now.value.0 in w.built && w.built[now.value.0].reusable == now.value.1)
  }

  lemma StepAnswers(w: World, e: Event, url: Url, now: Option<(MediaId, bool)>)
    requires Invariant(w) && EventOk(w, e) && Parsed(url) && Answers(w, url, now)
    ensures Answers(Step(w, e), url, NextShared(w, e, url, now))
  {
    if e.Unprepared? {
    } else {
      SharedIsCached(w, e, GenKey(url));
      var b := Built(w, e);
      if b.Some? && GenKey(b.value.0) == GenKey(url) {
        KeysDoNotCollide(b.value.0, url);
      }
    }
  }

  lemma {:induction false} RunAnswers(w: World, es: seq<Event>, url: Url, now: Option<(MediaId, bool)>)
    requires Invariant(w) && RunOk(w, es) && Parsed(url) && Answers(w, url, now)
    ensures Answers(Run(w, es), url, LastShared(w, es, url, now))
    decreases |es|
  {
    if es != [] {
      StepKeepsInvariant(w, es[0]);
      StepAnswers(w, es[0], url, now);
      RunAnswers(Step(w, es[0]), es[1..], url, NextShared(w, es[0], url, now));
    }
  }

  /**
   In every interleaving: a URL is answered from the cache exactly if some shared media was
   built for that URL and the latest of them was not unprepared since, unless it is reusable;
   and then it is answered with that one.
   */
  lemma CacheHoldsLatest(es: seq<Event>, url: Url)
    requires RunOk(EMPTY_WORLD, es) && Parsed(url)
    ensures var w, last := Run(EMPTY_WORLD, es), LastShared(EMPTY_WORLD, es, url, None);
            && (GenKey(url) in w.cache <==> last.Some?)
            && (last.Some? ==> w.cache[GenKey(url)] == last.value.0)
  {
    RunAnswers(EMPTY_WORLD, es, url, None);
  }

  // ------------------------------------------------------------------------ the code

  /** The table with a shared media under the key of its URL, and nothing else changed. */
  ghost predicate CachedIn(medias: map<string, MediaId>, before: map<string, MediaId>, url: Url, made: Made) {
    medias == if made.Some? && made.value.1 then before[GenKey(url) := made.value.0] else before
  }

  class Factory {
    /** The `medias` table. */
    var medias: map<string, MediaId>
    /** The media whose "unprepared" signal the factory listens to. */
    var watched: set<MediaId>
    ghost var world: World

    ghost predicate Valid()
      reads this
    {
      && medias == world.cache
      && (forall m :: m in watched <==> m in world.built && !world.built[m].reusable)
    }

    constructor ()
      ensures Valid() && world == EMPTY_WORLD
    {
      medias, watched, world := map[], {}, EMPTY_WORLD;
    }

    /** The first part of `gst_rtsp_media_factory_construct`, up to the release of the lock:
        the cached media, or a new one. */
    method LookUp(caller: Caller, url: Url, made: Made) returns (cached: Option<MediaId>, media: Option<MediaId>)
      requires Valid()
      requires EventOk(world, if GenKey(url) in world.cache then Hit(caller, url) else Miss(url, made))
      modifies this
      ensures Valid()
      ensures world == Step(old(world), if GenKey(url) in old(world).cache then Hit(caller, url) else Miss(url, made))
      ensures cached.Some? <==> GenKey(url) in old(world).cache
      ensures cached.Some? ==> world.pending[caller] == (url, cached.value) && media == None
      ensures cached.None? ==> (media.Some? <==> made.Some?) && (media.Some? ==> media.value == made.value.0)
      // a hit hands out what is cached, a miss caches a shared media under the key of the URL
      ensures cached.Some? ==> cached.value == old(medias)[GenKey(url)] && medias == old(medias)
      ensures cached.None? ==> CachedIn(medias, old(medias), url, made)
    {
      var key := GenKey(url);
      if key in medias {
        cached, media := Some(medias[key]), None;
        world := Step(world, Hit(caller, url));
      } else {
        cached := None;
        media := Create(key, url, made);
      }
    }

    /** The rest, for a media that was found: use it if it can be shared, else build one. */
    method UseOrRebuild(caller: Caller, url: Url, cached: MediaId, canBeShared: bool, made: Made)
      returns (media: Option<MediaId>)
      requires Valid() && caller in world.pending && world.pending[caller] == (url, cached) && Fresh(world, made)
      modifies this
      ensures Valid()
      ensures world == Step(old(world), if canBeShared then Reuse(caller) else Rebuild(caller, made))
      ensures canBeShared ==> media == Some(cached)
      ensures !canBeShared ==> (media.Some? <==> made.Some?) && (media.Some? ==> media.value == made.value.0)
      ensures if canBeShared then medias == old(medias) else CachedIn(medias, old(medias), url, made)
    {
      if canBeShared {
        media := Some(cached);
        world := Step(world, Reuse(caller));
      } else {
        world := world.(pending := world.pending - {caller});
        media := Create(GenKey(url), url, made);
      }
    }

    /** Build, configure and cache, with the lock of the cache taken. */
    method Create(key: string, url: Url, made: Made) returns (media: Option<MediaId>)
      requires Valid() && key == GenKey(url) && Fresh(world, made)
      modifies this
      ensures Valid() && world == Build(old(world), url, made)
      ensures (media.Some? <==> made.Some?) && (media.Some? ==> media.value == made.value.0)
      ensures CachedIn(medias, old(medias), url, made)
      ensures watched == old(watched) + if made.Some? && !made.value.2 then {made.value.0} else {}
    {
      if made.None? {
        return None;
      }
      var (m, shared, reusable) := made.value;
      if shared {
        medias := medias[key := m];
      }
      if !reusable {
        watched := watched + {m};
      }
      world := Build(world, url, made);
      media := Some(m);
    }

    /** `media_unprepared`: remove every key of the media. */
    method MediaUnprepared(m: MediaId)
      requires Valid() && m in world.built
      modifies this
      ensures Valid() && world == Step(old(world), Unprepared(m))
      ensures if m in old(watched)
              then forall k :: k in medias <==> k in old(medias) && old(medias)[k] != m
              else medias == old(medias)
      ensures forall k :: k in medias ==> k in old(medias) && medias[k] == old(medias)[k]
    {
      if m !in watched {
        return;
      }
      var todo := medias.Keys;
      while todo != {}
        invariant todo <= medias.Keys <= old(medias).Keys
        invariant forall k :: k in medias ==> medias[k] == old(medias)[k] && (k in todo || medias[k] != m)
        invariant forall k :: k in old(medias) && k !in medias ==> old(medias)[k] == m
        invariant watched == old(watched) && world == old(world)
        decreases todo
      {
        var k :| k in todo;
        todo := todo - {k};
        if medias[k] == m {
          medias := medias - {k};
        }
      }
      world := Step(world, Unprepared(m));
    }
  }
}
