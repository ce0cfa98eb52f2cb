/**
 Whole runs of the address pool: any sequence of add_range, clear, acquire, reserve,
 copy and free, with the handles (GstRTSPAddress) that callers hold.
 */
module AddressPoolRuns {
  import opened Basics
  import opened ByteAddress
  import opened AddressBlocks
  import opened AddressPoolModel

  /** What a caller holds. A copy has no pool, so freeing it releases nothing. */
  datatype Handle = Owned(block: Block) | Copied(block: Block) | Freed

  /** `granted` records what the pool was given since it was last cleared. */
  datatype World = World(pool: Pool, handles: seq<Handle>, granted: seq<Block>)

  const EMPTY_WORLD := World(EMPTY_POOL, [], [])

  datatype Call =
    | CallAddRange(min: Option<Inet>, max: Option<Inet>, minPort: uint16, maxPort: uint16, ttl: uint8)
    | CallClear
    | CallAcquire(flags: Flags, n: int)
    | CallReserve(ip: Option<Inet>, port: uint32, nPorts: uint32, rttl: uint32)
    | CallCopy(h: nat)
    | CallFree(h: nat)

  /** Where a block is in the list; |bs| if it is not there. */
  function IndexOf(bs: seq<Block>, b: Block): (i: nat)
    ensures i <= |bs| && (i < |bs| ==> bs[i] == b) && (b in bs ==> i < |bs|)
  {
    if bs == [] then 0 else if bs[0] == b then 0 else 1 + IndexOf(bs[1..], b)
  }

  function Keep(handles: seq<Handle>, got: Option<Block>): seq<Handle> {
    if got.Some? then handles + [Owned(got.value)] else handles
  }

  function Step(w: World, c: Call): World {
    match c
    case CallAddRange(min, max, minPort, maxPort, ttl) =>
      World(AddRange(w.pool, min, max, minPort, maxPort, ttl), w.handles,
            match RangeOf(min, max, minPort, maxPort, ttl)
            case None => w.granted
            case Some(b) => w.granted + [b])
    case CallClear =>
      World(Clear(w.pool), w.handles, if w.pool.taken == [] then [] else w.granted)
    case CallAcquire(flags, n) =>
      var (q, got) := Acquire(w.pool, flags, n);
      World(q, Keep(w.handles, got), w.granted)
    case CallReserve(ip, port, n, ttl) =>
      var (q, _, got) := Reserve(w.pool, ip, port, n, ttl);
      World(q, Keep(w.handles, got), w.granted)
    case CallCopy(h) =>
      if h < |w.handles| && !w.handles[h].Freed?
      then w.(handles := w.handles + [Copied(w.handles[h].block)])
      else w
    case CallFree(h) =>
      if h >= |w.handles| || w.handles[h].Freed? then w
      else if w.handles[h].Copied? then w.(handles := w.handles[h := Freed])
      else
        var i := IndexOf(w.pool.taken, w.handles[h].block);
        World(if i < |w.pool.taken| then ReleaseAt(w.pool, i) else w.pool, w.handles[h := Freed], w.granted)
  }

  /**
   What callers must respect: a range that is added overlaps no range granted before, and
   a reservation that is granted cuts inside the range it takes.
   */
  ghost predicate CallOk(w: World, c: Call) {
    match c
    case CallAddRange(min, max, minPort, maxPort, ttl) =>
      var r := RangeOf(min, max, minPort, maxPort, ttl);
      r.Some? ==> Disjoint(w.granted + [r.value])
    case CallReserve(ip, port, n, ttl) =>
      Reserve(w.pool, ip, port, n, ttl).1 == OK ==>
        var b := w.pool.free[FindAddress(w.pool.free, ip.value.bytes, port, n, ttl)];
        ReserveTiles(b, ip.value.bytes, port, n)
    case _ => true
  }

  /** A reservation is allowed if its ports fit a guint and its range starts near it; by
      NearRangesAreSafe that is so in every pool whose ranges have near ends. */
  lemma NearReservationIsAllowed(w: World, c: Call)
    requires PoolOk(w.pool) && c.CallReserve? && PortsFitUint(c.port, c.nPorts)
    requires c.ip.Some? ==> StartsNear(w.pool, c.ip.value.bytes, c.port, c.nPorts, c.rttl)
    ensures CallOk(w, c)
  {
    if Reserve(w.pool, c.ip, c.port, c.nPorts, c.rttl).1 == OK {
      ReserveConserves(w.pool, c.ip.value, c.port, c.nPorts, c.rttl);
    }
  }

  /** The blocks of the handles that still own something. */
  ghost function OwnedBlocks(hs: seq<Handle>): seq<Block> {
    if hs == [] then []
    else if hs[0].Owned? then [hs[0].block] + OwnedBlocks(hs[1..])
    else OwnedBlocks(hs[1..])
  }

  /** The invariant of all runs. */
  ghost predicate Invariant(w: World) {
    && PoolOk(w.pool)
    && Disjoint(AllBlocks(w.pool))
    && (forall s, f :: Hits(AllBlocks(w.pool), s, f) == Hits(w.granted, s, f))
    && multiset(OwnedBlocks(w.handles)) == multiset(w.pool.taken)
  }

  lemma {:induction false} OwnedConcat(a: seq<Handle>, b: seq<Handle>)
    ensures OwnedBlocks(a + b) == OwnedBlocks(a) + OwnedBlocks(b)
  {
    if a == [] {
      assert a + b == b;
    } else {
      assert (a + b)[1..] == a[1..] + b;
      OwnedConcat(a[1..], b);
    }
  }

  lemma OwnedUpdate(hs: seq<Handle>, h: nat, x: Handle)
    requires h < |hs|
    ensures OwnedBlocks(hs) == OwnedBlocks(hs[..h]) + OwnedBlocks([hs[h]]) + OwnedBlocks(hs[h + 1..])
    ensures OwnedBlocks(hs[h := x]) == OwnedBlocks(hs[..h]) + OwnedBlocks([x]) + OwnedBlocks(hs[h + 1..])
  {
    OwnedConcat(hs[..h], [hs[h]]);
    OwnedConcat(hs[..h] + [hs[h]], hs[h + 1..]);
    assert hs == hs[..h] + [hs[h]] + hs[h + 1..];
    OwnedConcat(hs[..h], [x]);
    OwnedConcat(hs[..h] + [x], hs[h + 1..]);
    assert hs[h := x] == hs[..h] + [x] + hs[h + 1..];
  }

  lemma RemoveFromMultiset(bs: seq<Block>, i: nat)
    requires i < |bs|
    ensures multiset(bs[..i] + bs[i + 1..]) == multiset(bs) - multiset{bs[i]}
  {
    assert bs == bs[..i] + [bs[i]] + bs[i + 1..];
  }

  lemma KeepOwned(hs: seq<Handle>, taken: seq<Block>, b: Block)
    requires multiset(OwnedBlocks(hs)) == multiset(taken)
    ensures multiset(OwnedBlocks(hs + [Owned(b)])) == multiset([b] + taken)
  {
    OwnedConcat(hs, [Owned(b)]);
    assert OwnedBlocks([Owned(b)]) == [b];
  }

  /** Exactly the allowed calls keep the invariant. */
  lemma StepKeepsInvariant(w: World, c: Call)
    requires Invariant(w)
    ensures Invariant(Step(w, c)) <==> CallOk(w, c)
  {
    match c
    case CallAddRange(min, max, minPort, maxPort, ttl) =>
      AddRangeKeeps(w, c);
    case CallClear =>
      if w.pool.taken == [] {
        assert AllBlocks(Step(w, c).pool) == [];
      }
    case CallAcquire(flags, n) =>
      var got := Acquire(w.pool, flags, n).1;
      if got.Some? {
        AcquireIsSound(w.pool, flags, n);
        KeepOwned(w.handles, w.pool.taken, got.value);
      }
    case CallReserve(ip, port, n, ttl) =>
      ReserveKeeps(w, c);
    case CallCopy(h) =>
      if h < |w.handles| && !w.handles[h].Freed? {
        OwnedConcat(w.handles, [Copied(w.handles[h].block)]);
      }
    case CallFree(h) =>
      FreeKeeps(w, h);
  }

  lemma AddRangeKeeps(w: World, c: Call)
    requires Invariant(w) && c.CallAddRange?
    ensures Invariant(Step(w, c)) <==> CallOk(w, c)
  {
    var r := RangeOf(c.min, c.max, c.minPort, c.maxPort, c.ttl);
    if r.Some? {
      var q := Step(w, c).pool;
      var granted := w.granted + [r.value];
      forall s, f ensures Hits(AllBlocks(q), s, f) == Hits(granted, s, f) {
        HitsConcat(w.granted, [r.value], s, f);
        assert AllBlocks(q) == [r.value] + AllBlocks(w.pool);
        HitsConcat([r.value], AllBlocks(w.pool), s, f);
      }
      SamePointsSameDisjoint(AllBlocks(q), granted);
    }
  }

  lemma SamePointsSameDisjoint(a: seq<Block>, b: seq<Block>)
    requires forall s, f :: Hits(a, s, f) == Hits(b, s, f)
    ensures Disjoint(a) <==> Disjoint(b)
  {
    if Disjoint(b) {
      forall s ensures Hits(a, s, AnyTtl) <= 1 {
        assert Hits(b, s, AnyTtl) <= 1;
      }
    }
    if Disjoint(a) {
      forall s ensures Hits(b, s, AnyTtl) <= 1 {
        assert Hits(a, s, AnyTtl) <= 1;
      }
    }
  }

  lemma ReserveKeeps(w: World, c: Call)
    requires Invariant(w) && c.CallReserve?
    ensures Invariant(Step(w, c)) <==> CallOk(w, c)
  {
    var (q, result, got) := Reserve(w.pool, c.ip, c.port, c.nPorts, c.rttl);
    if result == OK {
      ReserveConserves(w.pool, c.ip.value, c.port, c.nPorts, c.rttl);
      KeepOwned(w.handles, w.pool.taken, got.value);
      ConservedKeeps(w, q, Step(w, c).handles);
    }
  }

  /** A call that grants nothing keeps the invariant if and only if it keeps the points. */
  lemma ConservedKeeps(w: World, q: Pool, hs: seq<Handle>)
    requires Invariant(w) && multiset(OwnedBlocks(hs)) == multiset(q.taken)
    ensures Invariant(World(q, hs, w.granted)) <==> PoolOk(q) && SamePoints(w.pool, q)
  {
    var p := w.pool;
    if Invariant(World(q, hs, w.granted)) {
      forall s, f ensures Hits(AllBlocks(p), s, f) == Hits(AllBlocks(q), s, f) {
        assert Hits(w.granted, s, f) == Hits(AllBlocks(p), s, f);
      }
    }
    if SamePoints(p, q) {
      forall s, f ensures Hits(AllBlocks(q), s, f) == Hits(w.granted, s, f) {
        assert Hits(AllBlocks(p), s, f) == Hits(AllBlocks(q), s, f);
      }
      SamePointsSameDisjoint(AllBlocks(q), AllBlocks(p));
    }
  }

  lemma FreeKeeps(w: World, h: nat)
    requires Invariant(w)
    ensures Invariant(Step(w, CallFree(h)))
  {
    if h < |w.handles| && w.handles[h].Owned? {
      OwnedIsTaken(w.handles, w.pool.taken, h);
      var i := IndexOf(w.pool.taken, w.handles[h].block);
      FreedOwned(w.handles, w.pool.taken, h, i);
      ReleaseConserves(w.pool, i);
    } else if h < |w.handles| {
      OwnedUpdate(w.handles, h, Freed);
    }
  }

  lemma OwnedIsTaken(hs: seq<Handle>, taken: seq<Block>, h: nat)
    requires h < |hs| && hs[h].Owned? && multiset(OwnedBlocks(hs)) == multiset(taken)
    ensures hs[h].block in taken
  {
    OwnedUpdate(hs, h, Freed);
    assert OwnedBlocks([hs[h]]) == [hs[h].block];
    assert hs[h].block in OwnedBlocks(hs);
    assert hs[h].block in multiset(OwnedBlocks(hs));
  }

  lemma FreedOwned(hs: seq<Handle>, taken: seq<Block>, h: nat, i: nat)
    requires h < |hs| && hs[h].Owned? && multiset(OwnedBlocks(hs)) == multiset(taken)
    requires i < |taken| && taken[i] == hs[h].block
    ensures multiset(OwnedBlocks(hs[h := Freed])) == multiset(taken[..i] + taken[i + 1..])
  {
    OwnedUpdate(hs, h, Freed);
    assert OwnedBlocks([hs[h]]) == [hs[h].block];
    RemoveFromMultiset(taken, i);
  }

  // -------------------------------------------------------------------- whole runs

  function Run(w: World, cs: seq<Call>): World
    decreases |cs|
  {
    if cs == [] then w else Run(Step(w, cs[0]), cs[1..])
  }

  ghost predicate RunOk(w: World, cs: seq<Call>)
    decreases |cs|
  {
    cs == [] || (CallOk(w, cs[0]) && RunOk(Step(w, cs[0]), cs[1..]))
  }

  lemma {:induction false} RunKeepsInvariant(w: World, cs: seq<Call>)
    requires Invariant(w) && RunOk(w, cs)
    ensures Invariant(Run(w, cs))
    decreases |cs|
  {
    if cs != [] {
      StepKeepsInvariant(w, cs[0]);
      RunKeepsInvariant(Step(w, cs[0]), cs[1..]);
    }
  }

  /**
   Safety over every run: the points of the pool, free and allocated together, are
   exactly the granted ones with their ttl, none of them twice; and two different live
   handles never share an (address, port).
   */
  lemma RunIsSafe(cs: seq<Call>, g: nat, h: nat, s: Spot)
    requires RunOk(EMPTY_WORLD, cs)
    ensures var w := Run(EMPTY_WORLD, cs);
            && (forall x, f :: Hits(AllBlocks(w.pool), x, f) == Hits(w.granted, x, f))
            && Disjoint(AllBlocks(w.pool))
            && (g < h < |w.handles| && w.handles[g].Owned? && w.handles[h].Owned? ==>
                  !(Contains(w.handles[g].block, s) && Contains(w.handles[h].block, s)))
  {
    var w := Run(EMPTY_WORLD, cs);
    RunKeepsInvariant(EMPTY_WORLD, cs);
    if g < h < |w.handles| && w.handles[g].Owned? && w.handles[h].Owned? {
      LiveHandlesDisjoint(w, g, h, s);
    }
  }

  lemma LiveHandlesDisjoint(w: World, g: nat, h: nat, s: Spot)
    requires Invariant(w) && g < h < |w.handles| && w.handles[g].Owned? && w.handles[h].Owned?
    ensures !(Contains(w.handles[g].block, s) && Contains(w.handles[h].block, s))
  {
    var owned := OwnedBlocks(w.handles);
    var front := w.handles[..h];
    OwnedUpdate(w.handles, h, Freed);
    OwnedUpdate(front, g, Freed);
    assert OwnedBlocks([w.handles[h]]) == [w.handles[h].block];
    assert OwnedBlocks([front[g]]) == [w.handles[g].block];
    var i := |OwnedBlocks(front[..g])|;
    var j := |OwnedBlocks(front)|;
    assert owned[i] == w.handles[g].block && owned[j] == w.handles[h].block && i < j;
    forall x ensures Hits(owned, x, AnyTtl) <= 1 {
      HitsOfPermutation(owned, w.pool.taken, x, AnyTtl);
      HitsConcat(w.pool.free, w.pool.taken, x, AnyTtl);
    }
    DisjointBlocks(owned, i, j, s);
  }

  lemma {:induction false} HitsOfPermutation(a: seq<Block>, b: seq<Block>, s: Spot, f: TtlFilter)
    requires multiset(a) == multiset(b)
    ensures Hits(a, s, f) == Hits(b, s, f)
  {
    if a == [] {
      assert |multiset(b)| == |b|;
    } else {
      var i := IndexOf(b, a[0]);
      TailOfPermutation(a, b, i);
      HitsRemove(b, i, s, f);
      HitsOfPermutation(a[1..], b[..i] + b[i + 1..], s, f);
    }
  }

  lemma TailOfPermutation(a: seq<Block>, b: seq<Block>, i: nat)
    requires a != [] && multiset(a) == multiset(b) && i == IndexOf(b, a[0])
    ensures i < |b| && b[i] == a[0]
    ensures multiset(a[1..]) == multiset(b[..i] + b[i + 1..])
  {
    assert a == [a[0]] + a[1..];
    assert a[0] in multiset(b);
    RemoveFromMultiset(b, i);
  }

  /** Copying a live handle adds a handle to the same block that owns nothing, and leaves the pool
      and all other handles alone; there is nothing to copy of a freed one. */
  lemma CopyOwnsNothing(w: World, h: nat)
    requires h < |w.handles|
    ensures var v := Step(w, CallCopy(h));
            && v.pool == w.pool && v.granted == w.granted && v.handles[..|w.handles|] == w.handles
            && (if w.handles[h].Freed? then v == w
                else |v.handles| == |w.handles| + 1 && v.handles[|w.handles|] == Copied(w.handles[h].block))
  {
  }

  /** Freeing a copy, or freeing twice, gives nothing back to the pool. */
  lemma CopiesReleaseNothing(w: World, h: nat)
    requires h < |w.handles| && !w.handles[h].Owned?
    ensures Step(w, CallFree(h)).pool == w.pool
  {
  }

  /** Freeing what one call handed out puts every point back among the free ones. */
  lemma FreeUndoesAcquire(w: World, flags: Flags, n: int, s: Spot, f: TtlFilter)
    requires Invariant(w) && Acquire(w.pool, flags, n).1.Some?
    ensures var w1 := Step(w, CallAcquire(flags, n));
            var w2 := Step(w1, CallFree(|w.handles|));
            && Hits(w2.pool.free, s, f) == Hits(w.pool.free, s, f)
            && w2.pool.taken == w.pool.taken
  {
    AcquireIsSound(w.pool, flags, n);
    var (q, r) := Acquire(w.pool, flags, n);
    ReleaseConserves(q, 0);
    var back := ReleaseAt(q, 0);
    assert IndexOf(q.taken, r.value) == 0;
    assert Step(Step(w, CallAcquire(flags, n)), CallFree(|w.handles|)).pool == back;
    assert back.taken == w.pool.taken;
    HitsConcat(w.pool.free, w.pool.taken, s, f);
    HitsConcat(back.free, back.taken, s, f);
    assert Hits(AllBlocks(w.pool), s, f) == Hits(AllBlocks(q), s, f) == Hits(AllBlocks(back), s, f);
  }

  // --------------------------------------------------------- has_unicast_addresses

  /** The pool holds a unicast block, free or allocated. */
  ghost predicate HoldsUnicast(p: Pool) {
    HasUnicastBlock(AllBlocks(p))
  }

  ghost predicate HasUnicastBlock(bs: seq<Block>) {
    exists b :: b in bs && b.ttl == 0
  }

  /** A list that holds the same points with ttl 0 has a unicast block as well. */
  lemma UnicastCarriesOver(a: seq<Block>, b: seq<Block>)
    requires AllWellFormed(a) && HasUnicastBlock(a)
    requires forall s :: Hits(a, s, OnlyTtl(0)) == Hits(b, s, OnlyTtl(0))
    ensures HasUnicastBlock(b)
  {
    var x :| x in a && x.ttl == 0;
    var i := IndexOf(a, x);
    var s := Spot(|x.lo|, Num(x.lo), x.minPort);
    HitsRemove(a, i, s, OnlyTtl(0));
    assert Contains(x, s);
    UnicastHitIsThere(b, s);
  }

  lemma {:induction false} UnicastHitIsThere(bs: seq<Block>, s: Spot)
    requires Hits(bs, s, OnlyTtl(0)) > 0
    ensures HasUnicastBlock(bs)
  {
    if Hit(bs[0], s, OnlyTtl(0)) > 0 {
      assert bs[0] in bs;
    } else {
      UnicastHitIsThere(bs[1..], s);
      var b :| b in bs[1..] && b.ttl == 0;
      assert b in bs;
    }
  }

  lemma SamePointsSameUnicast(p: Pool, q: Pool)
    requires PoolOk(p) && PoolOk(q)
    requires forall s :: Hits(AllBlocks(p), s, OnlyTtl(0)) == Hits(AllBlocks(q), s, OnlyTtl(0))
    ensures HoldsUnicast(p) <==> HoldsUnicast(q)
  {
    if HoldsUnicast(p) {
      UnicastCarriesOver(AllBlocks(p), AllBlocks(q));
    }
    if HoldsUnicast(q) {
      UnicastCarriesOver(AllBlocks(q), AllBlocks(p));
    }
  }

  /** The flag tells exactly whether the pool holds unicast addresses, and every call
      keeps that so, except a clear that drops one. */
  lemma UnicastFlagIsExact(w: World, c: Call)
    requires Invariant(w) && CallOk(w, c)
    requires w.pool.hasUnicast <==> HoldsUnicast(w.pool)
    ensures (Step(w, c).pool.hasUnicast <==> HoldsUnicast(Step(w, c).pool))
       <==> !(c.CallClear? && w.pool.taken == [] && w.pool.hasUnicast)
  {
    StepKeepsInvariant(w, c);
    var q := Step(w, c).pool;
    match c
    case CallAddRange(min, max, minPort, maxPort, ttl) =>
      var r := RangeOf(min, max, minPort, maxPort, ttl);
      if r.Some? {
        assert AllBlocks(q) == [r.value] + AllBlocks(w.pool);
        assert r.value in AllBlocks(q);
        assert forall b :: b in AllBlocks(q) <==> b == r.value || b in AllBlocks(w.pool);
      }
    case CallClear =>
    case CallCopy(h) =>
    case _ =>
      forall s ensures Hits(AllBlocks(w.pool), s, OnlyTtl(0)) == Hits(AllBlocks(q), s, OnlyTtl(0)) {
        assert Hits(AllBlocks(w.pool), s, OnlyTtl(0)) == Hits(w.granted, s, OnlyTtl(0));
      }
      SamePointsSameUnicast(w.pool, q);
  }

  /** That clear leaves the flag set: a unicast range, and a clear. */
  lemma ClearLeavesFlag(addr: seq<byte>)
    requires |addr| == 4
    ensures var ip := Some(Inet(addr, false));
            var cs := [CallAddRange(ip, ip, 5000, 5001, 0), CallClear];
            && RunOk(EMPTY_WORLD, cs)
            && var p := Run(EMPTY_WORLD, cs).pool;
            p.hasUnicast && !HoldsUnicast(p)
  {
    var ip := Some(Inet(addr, false));
    var add := CallAddRange(ip, ip, 5000, 5001, 0);
    var b := Block(addr, addr, 5000, 5001, 0);
    MemcmpIsNumeric(addr, addr);
    assert RangeOf(ip, ip, 5000, 5001, 0) == Some(b);
    OneBlockIsDisjoint(b);
    assert [] + [b] == [b];
    var w1 := Step(EMPTY_WORLD, add);
    var w2 := Step(w1, CallClear);
    assert w2 == World(Pool([], [], true), [], []);
    Chain(w1, CallClear, []);
    Chain(EMPTY_WORLD, add, [CallClear]);
    assert [add] + [CallClear] == [add, CallClear] && [CallClear] + [] == [CallClear];
  }

  lemma OneBlockIsDisjoint(b: Block)
    ensures Disjoint([b])
  {
    forall s ensures Hits([b], s, AnyTtl) <= 1 {
      assert Hits([b], s, AnyTtl) == Hit(b, s, AnyTtl) + Hits([], s, AnyTtl);
    }
  }

  lemma Chain(w: World, c: Call, cs: seq<Call>)
    requires CallOk(w, c) && RunOk(Step(w, c), cs)
    ensures RunOk(w, [c] + cs) && Run(w, [c] + cs) == Run(Step(w, c), cs)
  {
    assert ([c] + cs)[1..] == cs;
  }

  // ------------------------------------------------------- release by identity, by value

  /** Two allocated ranges never show the same block, so a block tells which range it is. */
  lemma TakenBlocksDiffer(w: World)
    requires Invariant(w)
    ensures NoDuplicates(w.pool.taken)
  {
    var p := w.pool;
    forall i, j | 0 <= i < j < |p.taken| ensures p.taken[i] != p.taken[j] {
      var b := p.taken[i];
      assert b in p.taken && WellFormed(b);
      var k := |p.free|;
      assert AllBlocks(p)[k + i] == p.taken[i] && AllBlocks(p)[k + j] == p.taken[j];
      var s := Spot(|b.lo|, Num(b.lo), b.minPort);
      assert Contains(b, s);
      DisjointBlocks(AllBlocks(p), k + i, k + j, s);
    }
  }

  /** Freeing a handle releases the allocated range that shows its block, wherever it is. */
  lemma FreeReleasesItsRange(w: World, h: nat, i: nat)
    requires Invariant(w) && h < |w.handles| && w.handles[h].Owned?
    requires i < |w.pool.taken| && w.pool.taken[i] == w.handles[h].block
    ensures Step(w, CallFree(h)).pool == ReleaseAt(w.pool, i)
  {
    TakenBlocksDiffer(w);
    assert IndexOf(w.pool.taken, w.pool.taken[i]) == i;
  }
}
