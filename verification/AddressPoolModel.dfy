/**
 One call of the address pool as a function of its two lists, and the theorems
 about single calls: the searches are complete, every flag is honoured, nothing is
 lost or handed out twice.
 */
module AddressPoolModel {
  import opened Basics
  import opened ByteAddress
  import opened AddressBlocks

  /** The lists of free and of allocated ranges, newest first, and the flag that
      `gst_rtsp_address_pool_has_unicast_addresses` reports. */
  datatype Pool = Pool(free: seq<Block>, taken: seq<Block>, hasUnicast: bool)

  const EMPTY_POOL := Pool([], [], false)

  function AllBlocks(p: Pool): seq<Block> { p.free + p.taken }

  /** What the address parser makes of a text: bytes of one of the two families. */
  datatype RawInet = Inet(bytes: seq<byte>, isMulticast: bool)
  type Inet = a: RawInet | |a.bytes| == 4 || |a.bytes| == 16 witness Inet([0, 0, 0, 0], false)

  type uint16 = n: int | 0 <= n < 0x1_0000
  type uint8 = n: int | 0 <= n < 256

  /** The flags of acquire. */
  datatype Flags = Flags(evenPort: bool, ipv4: bool, ipv6: bool, multicast: bool, unicast: bool)

  datatype ReserveResult = OK | EINVAL | ERESERVED | ERANGE

  /** `fill_address`: the bytes, if the text parses and is of the wanted kind. */
  function FillAddress(parsed: Option<Inet>, isMulticast: bool): Option<seq<byte>> {
    if parsed.Some? && parsed.value.isMulticast == isMulticast then Some(parsed.value.bytes) else None
  }

  // ------------------------------------------------------------ add_range, clear

  /** The range that add_range builds, unless it rejects the arguments. */
  function RangeOf(min: Option<Inet>, max: Option<Inet>, minPort: uint16, maxPort: uint16, ttl: uint8)
    : (r: Option<Block>)
    ensures r.Some? ==> WellFormed(r.value)
  {
    if minPort > maxPort then None else
    var lo := FillAddress(min, ttl != 0);
    var hi := FillAddress(max, ttl != 0);
    if lo.None? || hi.None? || |lo.value| != |hi.value| || Memcmp(lo.value, hi.value) > 0 then None
    else
      MemcmpIsNumeric(lo.value, hi.value);
      Some(Block(lo.value, hi.value, minPort, maxPort, ttl))
  }

  function AddRange(p: Pool, min: Option<Inet>, max: Option<Inet>,
                    minPort: uint16, maxPort: uint16, ttl: uint8): Pool
  {
    match RangeOf(min, max, minPort, maxPort, ttl)
    case None => p
    case Some(b) => p.(free := [b] + p.free, hasUnicast := p.hasUnicast || ttl == 0)
  }

  /** `gst_rtsp_address_pool_clear`, which refuses while something is allocated. */
  function Clear(p: Pool): Pool {
    if p.taken != [] then p else p.(free := [])
  }

  // --------------------------------------------------------------------- acquire

  /** The flags that name a kind of address. */
  predicate KindOk(b: Block, flags: Flags) {
    && (flags.ipv4 ==> |b.lo| == 4)
    && (flags.ipv6 ==> |b.lo| == 16)
    && (flags.multicast ==> b.ttl != 0)
    && (flags.unicast ==> b.ttl == 0)
  }

  function Skip(b: Block, flags: Flags): uint32 {
    if flags.evenPort && b.minPort % 2 != 0 then 1 else 0
  }

  /** The checks of the acquire loop. */
  predicate Fits(b: Block, flags: Flags, n: int) {
    KindOk(b, flags) && b.maxPort - b.minPort + 1 - Skip(b, flags) >= n
  }

  function FirstFit(bs: seq<Block>, flags: Flags, n: int): (i: nat)
    ensures i <= |bs|
    ensures i < |bs| ==> Fits(bs[i], flags, n)
    ensures forall j :: 0 <= j < i ==> !Fits(bs[j], flags, n)
  {
    if bs == [] then 0
    else if Fits(bs[0], flags, n) then 0
    else 1 + FirstFit(bs[1..], flags, n)
  }

  /** Move block `i` out of the free list, split it, and allocate its middle. */
  function Take(p: Pool, i: nat, skipAddr: uint32, skipPort: uint32, n: int): (r: (Pool, Block))
    requires i < |p.free|
  {
    var (block, pieces) := SplitRange(p.free[i], skipAddr, skipPort, n);
    (p.(free := pieces + p.free[..i] + p.free[i + 1..], taken := [block] + p.taken), block)
  }

  function Acquire(p: Pool, flags: Flags, n: int): (r: (Pool, Option<Block>)) {
    if n <= 0 then (p, None) else
    var i := FirstFit(p.free, flags, n);
    if i == |p.free| then (p, None)
    else
      var (q, block) := Take(p, i, 0, Skip(p.free[i], flags), n);
      (q, Some(block))
  }

  // --------------------------------------------------------------------- reserve

  /** The checks of `find_address_in_ranges`; the last port is computed in 32 bits. */
  predicate Covers(b: Block, addr: seq<byte>, port: uint32, n: uint32, ttl: uint32) {
    && |b.lo| == |addr| && |b.hi| == |addr|
    && Memcmp(b.lo, addr) <= 0 && Memcmp(b.hi, addr) >= 0
    && b.minPort <= port && Wrap(port + n - 1) <= b.maxPort
    && b.ttl == ttl
  }

  function FindAddress(bs: seq<Block>, addr: seq<byte>, port: uint32, n: uint32, ttl: uint32): (i: nat)
    ensures i <= |bs|
    ensures i < |bs| ==> Covers(bs[i], addr, port, n, ttl)
    ensures forall j :: 0 <= j < i ==> !Covers(bs[j], addr, port, n, ttl)
  {
    if bs == [] then 0
    else if Covers(bs[0], addr, port, n, ttl) then 0
    else 1 + FindAddress(bs[1..], addr, port, n, ttl)
  }

  function SkipPort(b: Block, port: uint32): uint32 {
    Wrap(port - b.minPort)
  }

  function Reserve(p: Pool, ip: Option<Inet>, port: uint32, n: uint32, ttl: uint32)
    : (r: (Pool, ReserveResult, Option<Block>))
  {
    if port == 0 || n == 0 then (p, EINVAL, None) else
    match FillAddress(ip, ttl != 0)
    case None => (p, EINVAL, None)
    case Some(addr) =>
      var i := FindAddress(p.free, addr, port, n, ttl);
      if i < |p.free| then
        var (q, block) := Take(p, i, DiffFrom(addr, p.free[i].lo, 0, 0), SkipPort(p.free[i], port), ToInt(n));
        (q, OK, Some(block))
      else if FindAddress(p.taken, addr, port, n, ttl) < |p.taken| then (p, ERESERVED, None)
      else (p, ERANGE, None)
  }

  // --------------------------------------------------------------------- release

  /** Release the allocated range at `i`. */
  function ReleaseAt(p: Pool, i: nat): Pool
    requires i < |p.taken|
  {
    p.(free := [p.taken[i]] + p.free, taken := p.taken[..i] + p.taken[i + 1..])
  }

  // ------------------------------------------------------ theorems about one call

  ghost predicate PoolOk(p: Pool) {
    AllWellFormed(p.free) && AllWellFormed(p.taken)
  }

  /** The same points with the same ttl, counted over both lists. */
  ghost predicate SamePoints(p: Pool, q: Pool) {
    forall s, f :: Hits(AllBlocks(p), s, f) == Hits(AllBlocks(q), s, f)
  }

  /** How taking a range counts at one point, whatever the arguments. */
  lemma TakeHits(p: Pool, i: nat, skipAddr: uint32, skipPort: uint32, n: int, s: Spot, f: TtlFilter)
    requires i < |p.free|
    ensures var (block, pieces) := SplitRange(p.free[i], skipAddr, skipPort, n);
            Hits(AllBlocks(Take(p, i, skipAddr, skipPort, n).0), s, f) + Hit(p.free[i], s, f)
            == Hits(AllBlocks(p), s, f) + Hit(block, s, f) + Hits(pieces, s, f)
  {
    var (block, pieces) := SplitRange(p.free[i], skipAddr, skipPort, n);
    var rest := p.free[..i] + p.free[i + 1..];
    var q := Take(p, i, skipAddr, skipPort, n).0;
    assert q.free == pieces + rest && q.taken[1..] == p.taken;
    HitsConcat(q.free, q.taken, s, f);
    HitsConcat(pieces, rest, s, f);
    HitsConcat(p.free, p.taken, s, f);
    HitsRemove(p.free, i, s, f);
  }

  /** A cut that tiles its range keeps the pool. */
  lemma TakeConserves(p: Pool, i: nat, skipAddr: uint32, skipPort: uint32, n: int)
    requires PoolOk(p) && i < |p.free|
    requires Tiles(p.free[i], SplitRange(p.free[i], skipAddr, skipPort, n).0,
                   SplitRange(p.free[i], skipAddr, skipPort, n).1)
    ensures PoolOk(Take(p, i, skipAddr, skipPort, n).0)
    ensures SamePoints(p, Take(p, i, skipAddr, skipPort, n).0)
  {
    var q := Take(p, i, skipAddr, skipPort, n).0;
    var (block, pieces) := SplitRange(p.free[i], skipAddr, skipPort, n);
    forall s, f ensures Hits(AllBlocks(p), s, f) == Hits(AllBlocks(q), s, f) {
      TakeHits(p, i, skipAddr, skipPort, n, s, f);
      assert Hit(p.free[i], s, f) == Hit(block, s, f) + Hits(pieces, s, f);
    }
  }

  /** No other cut does. */
  lemma TakeConservesOnlyTiles(p: Pool, i: nat, skipAddr: uint32, skipPort: uint32, n: int)
    requires i < |p.free|
    requires PoolOk(Take(p, i, skipAddr, skipPort, n).0)
    requires SamePoints(p, Take(p, i, skipAddr, skipPort, n).0)
    ensures Tiles(p.free[i], SplitRange(p.free[i], skipAddr, skipPort, n).0,
                  SplitRange(p.free[i], skipAddr, skipPort, n).1)
  {
    var q := Take(p, i, skipAddr, skipPort, n).0;
    var (block, pieces) := SplitRange(p.free[i], skipAddr, skipPort, n);
    assert q.taken[0] == block;
    forall b | b in pieces ensures WellFormed(b) {
      assert b in q.free;
    }
    forall s, f ensures Hit(p.free[i], s, f) == Hit(block, s, f) + Hits(pieces, s, f) {
      TakeHits(p, i, skipAddr, skipPort, n, s, f);
      assert Hits(AllBlocks(p), s, f) == Hits(AllBlocks(q), s, f);
    }
  }

  /** Taking a range keeps the pool if and only if the cut tiles it. */
  lemma TakeConservesExactly(p: Pool, i: nat, skipAddr: uint32, skipPort: uint32, n: int, q: Pool)
    requires PoolOk(p) && i < |p.free| && q == Take(p, i, skipAddr, skipPort, n).0
    ensures PoolOk(q) && SamePoints(p, q)
       <==> Tiles(p.free[i], SplitRange(p.free[i], skipAddr, skipPort, n).0,
                  SplitRange(p.free[i], skipAddr, skipPort, n).1)
  {
    if Tiles(p.free[i], SplitRange(p.free[i], skipAddr, skipPort, n).0,
             SplitRange(p.free[i], skipAddr, skipPort, n).1) {
      TakeConserves(p, i, skipAddr, skipPort, n);
    }
    if PoolOk(q) && SamePoints(p, q) {
      TakeConservesOnlyTiles(p, i, skipAddr, skipPort, n);
    }
  }

  /** The arguments that add_range accepts: both texts parse as addresses of the kind that the
      ttl asks for and of one family, and neither addresses nor ports are out of order. */
  ghost predicate Addable(min: Option<Inet>, max: Option<Inet>, minPort: uint16, maxPort: uint16, ttl: uint8) {
    && min.Some? && max.Some? && |min.value.bytes| == |max.value.bytes|
    && (min.value.isMulticast <==> ttl != 0) && (max.value.isMulticast <==> ttl != 0)
    && Num(min.value.bytes) <= Num(max.value.bytes) && minPort <= maxPort
  }

  /** A point between the two addresses and the two ports, both ends included. */
  ghost predicate Within(min: Inet, max: Inet, minPort: int, maxPort: int, s: Spot) {
    |min.bytes| == s.size && Num(min.bytes) <= s.addr <= Num(max.bytes) && minPort <= s.port <= maxPort
  }

  /** add_range accepts exactly those arguments, and makes a range of exactly these points. */
  lemma RangeHolds(min: Option<Inet>, max: Option<Inet>, minPort: uint16, maxPort: uint16, ttl: uint8)
    ensures var r := RangeOf(min, max, minPort, maxPort, ttl);
            && (r.Some? <==> Addable(min, max, minPort, maxPort, ttl))
            && (r.Some? ==>
                  && r.value.ttl == ttl
                  && forall s :: Contains(r.value, s) <==> Within(min.value, max.value, minPort, maxPort, s))
  {
    if min.Some? && max.Some? && |min.value.bytes| == |max.value.bytes| {
      MemcmpIsNumeric(min.value.bytes, max.value.bytes);
    }
  }

  /** An accepted range adds each of its points to the free ones once, a rejected one changes
      nothing, and neither touches what is allocated. */
  lemma AddRangeAdds(p: Pool, min: Option<Inet>, max: Option<Inet>, minPort: uint16, maxPort: uint16, ttl: uint8,
                     s: Spot, f: TtlFilter)
    ensures var q := AddRange(p, min, max, minPort, maxPort, ttl);
            && (!Addable(min, max, minPort, maxPort, ttl) ==> q == p)
            && q.taken == p.taken
            && Hits(q.free, s, f) == Hits(p.free, s, f)
               + if && Addable(min, max, minPort, maxPort, ttl) && (f.AnyTtl? || f.ttl == ttl)
                    && Within(min.value, max.value, minPort, maxPort, s)
                 then 1 else 0
  {
    RangeHolds(min, max, minPort, maxPort, ttl);
    var q := AddRange(p, min, max, minPort, maxPort, ttl);
    if q.free != p.free {
      assert q.free[1..] == p.free;
    }
  }

  /** Clearing empties a pool of which nothing is allocated, and no other. */
  lemma ClearEmpties(p: Pool, s: Spot, f: TtlFilter)
    ensures p.taken == [] ==> Hits(AllBlocks(Clear(p)), s, f) == 0
    ensures p.taken != [] ==> Clear(p) == p
  {
  }

  /** A block of `n` ports, starting on an even port when asked, inside one free range. */
  ghost predicate HasRoom(b: Block, flags: Flags, n: int) {
    KindOk(b, flags) && exists q :: StartsRoom(b, flags, n, q)
  }

  ghost predicate StartsRoom(b: Block, flags: Flags, n: int, q: int) {
    b.minPort <= q && q + n - 1 <= b.maxPort && (flags.evenPort ==> q % 2 == 0)
  }

  lemma FitsMeansRoom(b: Block, flags: Flags, n: int)
    requires WellFormed(b) && n > 0
    ensures Fits(b, flags, n) <==> HasRoom(b, flags, n)
  {
    if Fits(b, flags, n) {
      assert StartsRoom(b, flags, n, b.minPort + Skip(b, flags));
    }
    if HasRoom(b, flags, n) {
      var q :| StartsRoom(b, flags, n, q);
      assert q >= b.minPort + Skip(b, flags);
    }
  }

  /** acquire finds nothing if and only if no free range has room for at least one port; and
      then nothing changes. */
  lemma AcquireIsComplete(p: Pool, flags: Flags, n: int)
    requires PoolOk(p)
    ensures Acquire(p, flags, n).1.None? <==> n <= 0 || forall b :: b in p.free ==> !HasRoom(b, flags, n)
    ensures Acquire(p, flags, n).1.None? ==> Acquire(p, flags, n).0 == p
  {
    if n <= 0 {
      return;
    }
    var i := FirstFit(p.free, flags, n);
    forall b | b in p.free ensures Fits(b, flags, n) <==> HasRoom(b, flags, n) {
      FitsMeansRoom(b, flags, n);
    }
    if i < |p.free| {
      assert p.free[i] in p.free;
    }
  }

  /** A block that was acquired honours every flag, is a single address with exactly
      `n` ports, and was free; and the call moves points without losing any. */
  lemma AcquireIsSound(p: Pool, flags: Flags, n: int)
    requires PoolOk(p) && Acquire(p, flags, n).1.Some?
    ensures var (q, r) := Acquire(p, flags, n);
            && PoolOk(q) && SamePoints(p, q)
            && q.taken == [r.value] + p.taken
            && KindOk(r.value, flags)
            && (flags.evenPort ==> r.value.minPort % 2 == 0)
            && r.value.lo == r.value.hi
            && r.value.maxPort - r.value.minPort + 1 == n
            && forall s, f :: Hit(r.value, s, f) <= Hits(p.free, s, f)
  {
    var i := FirstFit(p.free, flags, n);
    var b := p.free[i];
    var skip := Skip(b, flags);
    SplitRangeTiles(b, 0, skip, n);
    TakeConserves(p, i, 0, skip, n);
    var (block, pieces) := SplitRange(b, 0, skip, n);
    KeptWasFree(p.free, i, block, pieces);
  }

  lemma KeptWasFree(bs: seq<Block>, i: nat, block: Block, pieces: seq<Block>)
    requires i < |bs| && Tiles(bs[i], block, pieces)
    ensures forall s, f :: Hit(block, s, f) <= Hits(bs, s, f)
  {
    forall s, f ensures Hit(block, s, f) <= Hits(bs, s, f) {
      HitsRemove(bs, i, s, f);
      assert Hit(bs[i], s, f) == Hit(block, s, f) + Hits(pieces, s, f);
    }
  }

  /** Giving a block back and asking again with the same arguments gives it again. */
  lemma AcquireReleaseAcquire(p: Pool, flags: Flags, n: int)
    requires PoolOk(p) && Acquire(p, flags, n).1.Some?
    ensures var (q, r) := Acquire(p, flags, n);
            && Acquire(ReleaseAt(q, 0), flags, n).1 == r
  {
    AcquireIsSound(p, flags, n);
    var (q, r) := Acquire(p, flags, n);
    var again := ReleaseAt(q, 0);
    assert again.free[0] == r.value;
    assert FirstFit(again.free, flags, n) == 0;
    assert SplitRange(r.value, 0, 0, n).0 == r.value;
  }

  /** One range holds the whole requested block, with that ttl. */
  ghost predicate HoldsRequest(b: Block, addr: seq<byte>, port: int, n: int, ttl: int) {
    && b.ttl == ttl
    && forall k :: port <= k < port + n ==> Contains(b, Spot(|addr|, Num(addr), k))
  }

  /** The last requested port does not overflow a guint. */
  predicate PortsFitUint(port: uint32, n: uint32) {
    port + n <= U32
  }

  lemma CoversMeansHolds(b: Block, addr: seq<byte>, port: uint32, n: uint32, ttl: uint32)
    requires WellFormed(b) && n > 0 && PortsFitUint(port, n)
    ensures Covers(b, addr, port, n, ttl) <==> HoldsRequest(b, addr, port, n, ttl)
  {
    if |addr| == |b.lo| {
      MemcmpIsNumeric(b.lo, addr);
      MemcmpIsNumeric(b.hi, addr);
    }
    if HoldsRequest(b, addr, port, n, ttl) {
      assert Contains(b, Spot(|addr|, Num(addr), port));
      assert Contains(b, Spot(|addr|, Num(addr), port + n - 1));
    }
  }

  /** No range holds a request whose ports overflow a guint, let alone 65535. */
  lemma OverflowIsNeverHeld(b: Block, addr: seq<byte>, port: uint32, n: uint32, ttl: uint32)
    requires WellFormed(b) && n > 0 && !PortsFitUint(port, n)
    ensures !HoldsRequest(b, addr, port, n, ttl)
  {
    assert !Contains(b, Spot(|addr|, Num(addr), port + n - 1));
  }

  ghost predicate SomeHolds(bs: seq<Block>, addr: seq<byte>, port: uint32, n: uint32, ttl: uint32) {
    exists b :: b in bs && HoldsRequest(b, addr, port, n, ttl)
  }

  /** The answer that a request deserves: OK if one free range holds all of it, ERESERVED if
      none does but an allocated one does, ERANGE otherwise. */
  ghost function RightAnswer(p: Pool, addr: seq<byte>, port: uint32, n: uint32, ttl: uint32): ReserveResult {
    if SomeHolds(p.free, addr, port, n, ttl) then OK
    else if SomeHolds(p.taken, addr, port, n, ttl) then ERESERVED
    else ERANGE
  }

  /**
   reserve answers EINVAL exactly for unusable arguments. Any other answer is the right one
   if and only if the last port fits a guint, or no range at all passes the checks; and
   nothing changes unless the answer is OK.
   */
  lemma ReserveAnswers(p: Pool, ip: Option<Inet>, port: uint32, n: uint32, ttl: uint32)
    requires PoolOk(p)
    ensures var result := Reserve(p, ip, port, n, ttl).1;
            && (result == EINVAL <==>
                  port == 0 || n == 0 || ip.None? || ip.value.isMulticast != (ttl != 0))
            && (result != EINVAL ==>
                  (result == RightAnswer(p, ip.value.bytes, port, n, ttl) <==>
                   PortsFitUint(port, n)
                   || forall b :: b in p.free + p.taken ==> !Covers(b, ip.value.bytes, port, n, ttl)))
            && (result != OK ==> Reserve(p, ip, port, n, ttl).0 == p)
  {
    if port > 0 && n > 0 && ip.Some? && ip.value.isMulticast == (ttl != 0) {
      if PortsFitUint(port, n) {
        FindIsComplete(p.free, ip.value.bytes, port, n, ttl);
        FindIsComplete(p.taken, ip.value.bytes, port, n, ttl);
      } else {
        OverflowDeserves(p, ip.value.bytes, port, n, ttl);
        FindIsFirst(p.free, ip.value.bytes, port, n, ttl);
        FindIsFirst(p.taken, ip.value.bytes, port, n, ttl);
      }
    }
  }

  lemma OverflowDeserves(p: Pool, addr: seq<byte>, port: uint32, n: uint32, ttl: uint32)
    requires PoolOk(p) && n > 0 && !PortsFitUint(port, n)
    ensures RightAnswer(p, addr, port, n, ttl) == ERANGE
  {
    forall b | b in p.free + p.taken ensures !HoldsRequest(b, addr, port, n, ttl) {
      OverflowIsNeverHeld(b, addr, port, n, ttl);
    }
    assert forall b :: b in p.free || b in p.taken ==> b in p.free + p.taken;
  }

  lemma FindIsFirst(bs: seq<Block>, addr: seq<byte>, port: uint32, n: uint32, ttl: uint32)
    ensures FindAddress(bs, addr, port, n, ttl) < |bs| <==> exists b :: b in bs && Covers(b, addr, port, n, ttl)
  {
    var i := FindAddress(bs, addr, port, n, ttl);
    if i < |bs| {
      assert bs[i] in bs;
    }
  }

  lemma FindIsComplete(bs: seq<Block>, addr: seq<byte>, port: uint32, n: uint32, ttl: uint32)
    requires AllWellFormed(bs) && n > 0 && PortsFitUint(port, n)
    ensures FindAddress(bs, addr, port, n, ttl) < |bs| <==> SomeHolds(bs, addr, port, n, ttl)
  {
    forall b | b in bs ensures Covers(b, addr, port, n, ttl) <==> HoldsRequest(b, addr, port, n, ttl) {
      CoversMeansHolds(b, addr, port, n, ttl);
    }
    FindIsFirst(bs, addr, port, n, ttl);
  }

  /** reserve picks a range that starts near the requested address. */
  ghost predicate StartsNear(p: Pool, addr: seq<byte>, port: uint32, n: uint32, ttl: uint32)
    requires |addr| > 0
  {
    var i := FindAddress(p.free, addr, port, n, ttl);
    i < |p.free| ==> Near(addr, p.free[i].lo)
  }

  /**
   When reserve answers OK, the block it hands out is the requested one if and only
   if the port arithmetic does not overflow and the range starts near the address.
   */
  lemma ReserveDeliversExactly(p: Pool, ip: Inet, port: uint32, n: uint32, ttl: uint32)
    requires PoolOk(p) && Reserve(p, Some(ip), port, n, ttl).1 == OK
    ensures Reserve(p, Some(ip), port, n, ttl).2 == Some(Block(ip.bytes, ip.bytes, port, port + n - 1, ttl))
       <==> PortsFitUint(port, n) && StartsNear(p, ip.bytes, port, n, ttl)
  {
    var addr := ip.bytes;
    var i := FindAddress(p.free, addr, port, n, ttl);
    var b := p.free[i];
    assert b in p.free;
    SplitDeliversExactly(b, addr, port, n, ttl);
  }

  /** The block cut out for a request. */
  function CutFor(b: Block, addr: seq<byte>, port: uint32, n: uint32): Block
    requires |addr| == |b.lo|
  {
    SplitRange(b, DiffFrom(addr, b.lo, 0, 0), SkipPort(b, port), ToInt(n)).0
  }

  lemma SplitDeliversExactly(b: Block, addr: seq<byte>, port: uint32, n: uint32, ttl: uint32)
    requires WellFormed(b) && n > 0 && Covers(b, addr, port, n, ttl)
    ensures CutFor(b, addr, port, n) == Block(addr, addr, port, port + n - 1, ttl)
       <==> PortsFitUint(port, n) && Near(addr, b.lo)
  {
    if PortsFitUint(port, n) && Near(addr, b.lo) {
      NearSplitDelivers(b, addr, port, n, ttl);
    } else {
      MemcmpIsNumeric(b.lo, addr);
      IncUndoesDiff(addr, b.lo);
      CutParts(b, DiffFrom(addr, b.lo, 0, 0), SkipPort(b, port), ToInt(n));
    }
  }

  lemma NearSplitDelivers(b: Block, addr: seq<byte>, port: uint32, n: uint32, ttl: uint32)
    requires WellFormed(b) && n > 0 && Covers(b, addr, port, n, ttl)
    requires PortsFitUint(port, n) && Near(addr, b.lo)
    ensures CutFor(b, addr, port, n) == Block(addr, addr, port, port + n - 1, ttl)
  {
    var skip := DiffFrom(addr, b.lo, 0, 0);
    DiffIsDistanceOf(b, addr);
    NearDoesNotWrap(addr, b.lo);
    ReserveSplitFits(b, addr, port, n, ttl);
    SplitRangeTiles(b, skip, SkipPort(b, port), ToInt(n));
    NumInjective(CutFor(b, addr, port, n).lo, addr);
  }

  lemma DiffIsDistanceOf(b: Block, addr: seq<byte>)
    requires WellFormed(b) && |b.lo| == |addr| && Memcmp(b.lo, addr) <= 0
    ensures Num(b.lo) <= Num(addr)
    ensures Near(addr, b.lo) ==> DiffFrom(addr, b.lo, 0, 0) == Num(addr) - Num(b.lo)
  {
    MemcmpIsNumeric(b.lo, addr);
    DiffIsDistance(addr, b.lo);
  }

  /** Whatever the arguments of split_range, its block starts where inc_address says
      and its ports are 16 bits wide. */
  lemma CutParts(b: Block, skipAddr: uint32, skipPort: uint32, n: int)
    requires WellFormed(b)
    ensures var r := SplitRange(b, skipAddr, skipPort, n).0;
            r.lo == Inc(b.lo, skipAddr) && r.maxPort < 0x1_0000
  {
    var b1 := CutFront(b, skipAddr).0;
    var b2 := CutSingle(b1).0;
    var b3 := CutPorts(b2, skipPort).0;
    var b4 := CutTail(b3, n).0;
    assert b1.lo == b2.lo == b3.lo == b4.lo;
    assert b1.maxPort == b2.maxPort == b3.maxPort == b.maxPort;
  }

  /** The address arithmetic of a granted reservation stays inside the 32-bit register. */
  predicate SkipFits(b: Block, addr: seq<byte>)
    requires |addr| == |b.lo| > 0
  {
    DiffFrom(addr, b.lo, 0, 0) + b.lo[|b.lo| - 1] < U32
  }

  lemma ReserveSplitFits(b: Block, addr: seq<byte>, port: uint32, n: uint32, ttl: uint32)
    requires WellFormed(b) && n > 0 && Covers(b, addr, port, n, ttl) && PortsFitUint(port, n)
    ensures SkipPort(b, port) == port - b.minPort && ToInt(n) == n
    ensures SplitFits(b, DiffFrom(addr, b.lo, 0, 0), SkipPort(b, port), ToInt(n)) <==> SkipFits(b, addr)
  {
    MemcmpIsNumeric(b.lo, addr);
    MemcmpIsNumeric(b.hi, addr);
    DiffIsDistance(addr, b.lo);
  }

  /** The cut of a granted reservation stays inside its range: neither the address register
      nor a port wraps round in a way that leaves it. */
  predicate ReserveTiles(b: Block, addr: seq<byte>, port: uint32, n: uint32)
    requires |addr| == |b.lo| > 0
  {
    SkipFits(b, addr) && PortCutOk(b, SkipPort(b, port), ToInt(n))
  }

  /** That is so if the ports fit a guint and the range starts near the address. */
  lemma NearReserveTiles(b: Block, addr: seq<byte>, port: uint32, n: uint32, ttl: uint32)
    requires WellFormed(b) && n > 0 && Covers(b, addr, port, n, ttl)
    ensures PortsFitUint(port, n) ==> PortCutOk(b, SkipPort(b, port), ToInt(n))
    ensures Near(addr, b.lo) ==> SkipFits(b, addr)
  {
    if PortsFitUint(port, n) {
      FittingPortsCut(b, SkipPort(b, port), ToInt(n));
    }
    if Near(addr, b.lo) {
      DiffIsDistanceOf(b, addr);
      NearDoesNotWrap(addr, b.lo);
    }
  }

  /**
   A granted reservation keeps all points, in ranges that are well-formed, if and only if its
   cut stays inside the range it takes; whatever the arguments.
   */
  lemma ReserveConserves(p: Pool, ip: Inet, port: uint32, n: uint32, ttl: uint32)
    requires PoolOk(p) && Reserve(p, Some(ip), port, n, ttl).1 == OK
    ensures var q := Reserve(p, Some(ip), port, n, ttl).0;
            var b := p.free[FindAddress(p.free, ip.bytes, port, n, ttl)];
            && (PoolOk(q) && SamePoints(p, q) <==> ReserveTiles(b, ip.bytes, port, n))
            && (PortsFitUint(port, n) && Near(ip.bytes, b.lo) ==> ReserveTiles(b, ip.bytes, port, n))
  {
    var addr := ip.bytes;
    var i := FindAddress(p.free, addr, port, n, ttl);
    var b := p.free[i];
    assert b in p.free;
    CutConserves(p, i, addr, port, n, Reserve(p, Some(ip), port, n, ttl).0);
    NearReserveTiles(b, addr, port, n, ttl);
  }

  lemma CutConserves(p: Pool, i: nat, addr: seq<byte>, port: uint32, n: uint32, q: Pool)
    requires PoolOk(p) && i < |p.free| && WellFormed(p.free[i]) && |p.free[i].lo| == |addr|
    requires Memcmp(p.free[i].lo, addr) <= 0 && Memcmp(p.free[i].hi, addr) >= 0
    requires q == Take(p, i, DiffFrom(addr, p.free[i].lo, 0, 0), SkipPort(p.free[i], port), ToInt(n)).0
    ensures PoolOk(q) && SamePoints(p, q) <==> ReserveTiles(p.free[i], addr, port, n)
  {
    var skipAddr, skipPort := DiffFrom(addr, p.free[i].lo, 0, 0), SkipPort(p.free[i], port);
    DiffStaysInside(p.free[i], addr);
    SplitTilesExactly(p.free[i], skipAddr, skipPort, ToInt(n));
    TakeConservesExactly(p, i, skipAddr, skipPort, ToInt(n), q);
  }

  lemma DiffStaysInside(b: Block, addr: seq<byte>)
    requires WellFormed(b) && |b.lo| == |addr| == |b.hi|
    requires Memcmp(b.lo, addr) <= 0 && Memcmp(b.hi, addr) >= 0
    ensures Num(b.lo) + DiffFrom(addr, b.lo, 0, 0) <= Num(b.hi)
  {
    MemcmpIsNumeric(b.lo, addr);
    MemcmpIsNumeric(b.hi, addr);
    DiffIsDistance(addr, b.lo);
  }

  /** When the register wraps, the block that is handed out lies below its range. */
  lemma WrappedSkipLeavesRange(p: Pool, i: nat, skipAddr: uint32, skipPort: uint32, n: int)
    requires PoolOk(p) && i < |p.free| && n > 0 && WellFormed(p.free[i])
    requires p.free[i].minPort + skipPort + n - 1 <= p.free[i].maxPort
    requires skipAddr + p.free[i].lo[|p.free[i].lo| - 1] >= U32
    ensures var (q, block) := Take(p, i, skipAddr, skipPort, n);
            var s := Spot(|block.lo|, Num(block.lo), block.minPort);
            && Num(block.lo) < Num(p.free[i].lo)
            && Hits(AllBlocks(q), s, AnyTtl) == Hits(AllBlocks(p), s, AnyTtl) + 1
  {
    var b := p.free[i];
    var (single, cut) := CutAddresses(b, skipAddr);
    WrappedCut(b, skipAddr);
    var (block, ports) := CutPortRange(single, skipPort, n);
    FittingPortsCut(single, skipPort, n);
    CutPortRangeTiles(single, skipPort, n);
    var s := Spot(|block.lo|, Num(block.lo), block.minPort);
    assert Hits(cut, s, AnyTtl) == 0;
    assert Hit(single, s, AnyTtl) == 1;
    HitsConcat(ports, cut, s, AnyTtl);
    TakeHits(p, i, skipAddr, skipPort, n, s, AnyTtl);
  }

  /** Ranges whose ends are near one another never lead reserve astray. */
  lemma NearRangesAreSafe(p: Pool, addr: seq<byte>, port: uint32, n: uint32, ttl: uint32)
    requires PoolOk(p) && (|addr| == 4 || |addr| == 16)
    requires forall b :: b in p.free ==> Near(b.hi, b.lo)
    ensures StartsNear(p, addr, port, n, ttl)
  {
    var i := FindAddress(p.free, addr, port, n, ttl);
    if i < |p.free| {
      var b := p.free[i];
      assert b in p.free;
      MemcmpIsNumeric(b.hi, addr);
      PrefixDistanceGrows(b.hi, addr, |addr| - 1);
    }
  }

  /** Releasing moves the block back. */
  lemma ReleaseConserves(p: Pool, i: nat)
    requires PoolOk(p) && i < |p.taken|
    ensures PoolOk(ReleaseAt(p, i)) && SamePoints(p, ReleaseAt(p, i))
  {
    var q := ReleaseAt(p, i);
    forall s, f ensures Hits(AllBlocks(p), s, f) == Hits(AllBlocks(q), s, f) {
      HitsConcat(p.free, p.taken, s, f);
      HitsRemove(p.taken, i, s, f);
      HitsConcat(q.free, q.taken, s, f);
      assert q.free[1..] == p.free;
    }
  }

  /** A request for ports beyond 65535 is granted once the port arithmetic overflows,
      although no range holds it. */
  lemma OverflowIsGranted(addr: seq<byte>)
    requires |addr| == 4
    ensures var p := Pool([Block(addr, addr, 5000, 5001, 0)], [], true);
            && Reserve(p, Some(Inet(addr, false)), 0xFFFF_FFFF, 2, 0).1 == OK
            && forall b :: b in p.free ==> !HoldsRequest(b, addr, 0xFFFF_FFFF, 2, 0)
  {
    var b := Block(addr, addr, 5000, 5001, 0);
    MemcmpIsNumeric(addr, addr);
    assert Covers(b, addr, 0xFFFF_FFFF, 2, 0);
    assert FindAddress([b], addr, 0xFFFF_FFFF, 2, 0) == 0;
    assert !Contains(b, Spot(4, Num(addr), 0xFFFF_FFFF));
  }

  /** A request for 4294967295 ports from the first one of a range on is granted as well: the count
      is taken as -1, the block that is handed out has no port at all, and a port in front of
      the range becomes free that nobody added. */
  lemma HugeReservationAddsPort(addr: seq<byte>)
    requires |addr| == 4
    ensures var p := Pool([Block(addr, addr, 5000, 5001, 0)], [], true);
            var (q, result, got) := Reserve(p, Some(Inet(addr, false)), 5000, 0xFFFF_FFFF, 0);
            && PoolOk(p) && result == OK && got == Some(Block(addr, addr, 5000, 4998, 0))
            && var s := Spot(4, Num(addr), 4999);
            Hits(AllBlocks(p), s, AnyTtl) == 0 && Hits(AllBlocks(q), s, AnyTtl) == 1
  {
    var b := Block(addr, addr, 5000, 5001, 0);
    var p := Pool([b], [], true);
    MemcmpIsNumeric(addr, addr);
    assert Covers(b, addr, 5000, 0xFFFF_FFFF, 0);
    assert FindAddress([b], addr, 5000, 0xFFFF_FFFF, 0) == 0;
    SelfDistance(addr);
    var q := Take(p, 0, 0, 0, -1).0;
    var s := Spot(4, Num(addr), 4999);
    assert q.free == [b.(minPort := 4999)] && q.taken == [b.(maxPort := 4998)];
    assert AllBlocks(p) == [b] && AllBlocks(q) == [b.(minPort := 4999), b.(maxPort := 4998)];
    assert Hits([b], s, AnyTtl) == Hit(b, s, AnyTtl) + Hits([], s, AnyTtl);
    assert AllBlocks(q)[1..] == [b.(maxPort := 4998)];
    assert Hits([b.(maxPort := 4998)], s, AnyTtl) == Hit(b.(maxPort := 4998), s, AnyTtl) + Hits([], s, AnyTtl);
  }

  lemma SelfDistance(addr: seq<byte>)
    requires |addr| == 4
    ensures DiffFrom(addr, addr, 0, 0) == 0
  {
    Ipv4IsNear(addr, addr);
    DiffIsDistance(addr, addr);
  }

  /** A pool of one IPv6 range, asked for its last address: it hands out the address before
      its first one, which nobody ever added. */
  lemma FarReserveLeavesRange(max: seq<byte>, min: seq<byte>, port: uint16)
    requires |max| == |min| == 16 && max[..8] == min[..8] && port > 0
    requires max[8..12] == [255, 255, 255, 255] && min[8..] == [0, 0, 0, 0, 0, 0, 0, 1]
    requires Num(min) <= Num(max)
    ensures var p := Pool([Block(min, max, port, port, 0)], [], true);
            var (q, result, got) := Reserve(p, Some(Inet(max, false)), port, 1, 0);
            && PoolOk(p) && result == OK && Num(got.value.lo) == Num(min) - 1
            && var s := Spot(16, Num(min) - 1, port);
            Hits(AllBlocks(p), s, AnyTtl) == 0 && Hits(AllBlocks(q), s, AnyTtl) == 1
  {
    var b := Block(min, max, port, port, 0);
    var p := Pool([b], [], true);
    FarReserveTakes(max, min, port);
    FarAddressUnderflows(max, min);
    FarSkip(max, min);
    WrappedSkipLeavesRange(p, 0, 0xFFFF_FFFF, 0, 1);
    CutParts(b, 0xFFFF_FFFF, 0, 1);
    var s := Spot(16, Num(min) - 1, port);
    assert AllBlocks(p) == [b];
    assert Hits([b], s, AnyTtl) == Hit(b, s, AnyTtl) + Hits([], s, AnyTtl);
  }

  /** The request finds the range, and takes it apart as computed. */
  lemma FarReserveTakes(max: seq<byte>, min: seq<byte>, port: uint16)
    requires |max| == |min| == 16 && max[..8] == min[..8] && port > 0
    requires max[8..12] == [255, 255, 255, 255] && min[8..] == [0, 0, 0, 0, 0, 0, 0, 1]
    requires Num(min) <= Num(max)
    ensures var p := Pool([Block(min, max, port, port, 0)], [], true);
            var (q, block) := Take(p, 0, 0xFFFF_FFFF, 0, 1);
            Reserve(p, Some(Inet(max, false)), port, 1, 0) == (q, OK, Some(block)) && block.minPort == port
  {
    var b := Block(min, max, port, port, 0);
    MemcmpIsNumeric(min, max);
    MemcmpIsNumeric(max, max);
    assert Covers(b, max, port, 1, 0);
    assert FindAddress([b], max, port, 1, 0) == 0;
    FarSkip(max, min);
  }
}
