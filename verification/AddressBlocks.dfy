/**
 The value side of the address pool: rectangular blocks of (address, port) pairs,
 what one call does to the lists of free and allocated blocks, and what the pool
 promises about them.
 */
module AddressBlocks {
  import opened Basics
  import opened ByteAddress

  /** An AddrRange: addresses lo..hi and ports minPort..maxPort, all inclusive. */
  datatype Block = Block(lo: seq<byte>, hi: seq<byte>, minPort: int, maxPort: int, ttl: int)

  ghost predicate WellFormed(b: Block) {
    && |b.lo| == |b.hi|
    && (|b.lo| == 4 || |b.lo| == 16)
    && Num(b.lo) <= Num(b.hi)
    && 0 <= b.minPort <= b.maxPort < 0x1_0000
    && 0 <= b.ttl < 256
  }

  ghost predicate AllWellFormed(bs: seq<Block>) {
    forall b :: b in bs ==> WellFormed(b)
  }

  // ------------------------------------------------------ points and counting

  /** A point of a pool: one port of one address of a family (4 or 16 bytes). */
  datatype Spot = Spot(size: nat, addr: nat, port: int)

  /** Which blocks to count: those of every ttl, or those of one. */
  datatype TtlFilter = AnyTtl | OnlyTtl(ttl: int)

  ghost predicate Contains(b: Block, s: Spot) {
    |b.lo| == s.size && Num(b.lo) <= s.addr <= Num(b.hi) && b.minPort <= s.port <= b.maxPort
  }

  ghost function Hit(b: Block, s: Spot, f: TtlFilter): nat {
    if Contains(b, s) && (f.AnyTtl? || f.ttl == b.ttl) then 1 else 0
  }

  /** How many of the blocks hold a point. */
  ghost function Hits(bs: seq<Block>, s: Spot, f: TtlFilter): nat {
    if bs == [] then 0 else Hit(bs[0], s, f) + Hits(bs[1..], s, f)
  }

  lemma {:induction false} HitsConcat(a: seq<Block>, b: seq<Block>, s: Spot, f: TtlFilter)
    ensures Hits(a + b, s, f) == Hits(a, s, f) + Hits(b, s, f)
  {
    if a == [] {
      assert a + b == b;
    } else {
      assert (a + b)[1..] == a[1..] + b;
      HitsConcat(a[1..], b, s, f);
    }
  }

  lemma HitsRemove(bs: seq<Block>, i: nat, s: Spot, f: TtlFilter)
    requires i < |bs|
    ensures Hits(bs, s, f) == Hit(bs[i], s, f) + Hits(bs[..i] + bs[i + 1..], s, f)
  {
    HitsConcat(bs[..i], bs[i..], s, f);
    HitsConcat(bs[..i], bs[i + 1..], s, f);
    assert bs == bs[..i] + bs[i..];
    assert bs[i..][1..] == bs[i + 1..];
  }

  /** No point is held twice. */
  ghost predicate Disjoint(bs: seq<Block>) {
    forall s :: Hits(bs, s, AnyTtl) <= 1
  }

  /** Disjoint lists hold different blocks at different places, without a common point. */
  lemma DisjointBlocks(bs: seq<Block>, i: nat, j: nat, s: Spot)
    requires Disjoint(bs) && i < j < |bs|
    ensures !(Contains(bs[i], s) && Contains(bs[j], s))
  {
    HitsRemove(bs, i, s, AnyTtl);
    var rest := bs[..i] + bs[i + 1..];
    assert rest[j - 1] == bs[j];
    HitsRemove(rest, j - 1, s, AnyTtl);
  }

  // -------------------------------------------------------------- split_range

  /** C's conversion to guint16. */
  function U16(n: int): (r: int)
    ensures 0 <= n < 0x1_0000 ==> r == n
    ensures 0 <= r < 0x1_0000
  {
    n % 0x1_0000
  }

  /** Conversion of a guint to gint. */
  function ToInt(n: uint32): int { if n < 0x8000_0000 then n else n - U32 }

  /** The first cut of split_range: leave out `skip` addresses at the front. */
  function CutFront(b: Block, skip: uint32): (r: (Block, seq<Block>)) {
    if skip == 0 then (b, [])
    else (b.(lo := Inc(b.lo, skip)), [b.(hi := Inc(b.lo, skip - 1))])
  }

  /** The second cut: keep only the first address. */
  function CutSingle(b: Block): (r: (Block, seq<Block>)) {
    if b.lo == b.hi then (b, [])
    else (b.(hi := b.lo), [b.(lo := Inc(b.lo, 1))])
  }

  /** The third cut: leave out `skip` ports at the front. */
  function CutPorts(b: Block, skip: uint32): (r: (Block, seq<Block>)) {
    if skip == 0 then (b, [])
    else (b.(minPort := U16(b.minPort + skip)), [b.(maxPort := U16(b.minPort + skip - 1))])
  }

  /** The last cut: keep only the first `n` ports. */
  function CutTail(b: Block, n: int): (r: (Block, seq<Block>)) {
    if b.maxPort - b.minPort + 1 <= n then (b, [])
    else (b.(maxPort := U16(b.minPort + n - 1)), [b.(minPort := U16(b.minPort + n))])
  }

  /** Both cuts of addresses, newest piece first; what is kept is one address. */
  function CutAddresses(b: Block, skip: uint32): (r: (Block, seq<Block>)) {
    var (b1, p1) := CutFront(b, skip);
    var (b2, p2) := CutSingle(b1);
    (b2, p2 + p1)
  }

  /** Both cuts of ports. */
  function CutPortRange(b: Block, skip: uint32, n: int): (r: (Block, seq<Block>)) {
    var (b1, p1) := CutPorts(b, skip);
    var (b2, p2) := CutTail(b1, n);
    (b2, p2 + p1)
  }

  /** `split_range`: the block handed out, and what goes back to the front of the
      free list (the piece cut last comes first). */
  function SplitRange(b: Block, skipAddr: uint32, skipPort: uint32, n: int): (r: (Block, seq<Block>)) {
    var (single, p) := CutAddresses(b, skipAddr);
    var (block, q) := CutPortRange(single, skipPort, n);
    (block, q + p)
  }

  /** What a cut must do: divide the block into well-formed, hence non-empty, parts. */
  ghost predicate Tiles(b: Block, kept: Block, pieces: seq<Block>) {
    && WellFormed(kept)
    && AllWellFormed(pieces)
    && forall s, f :: Hit(b, s, f) == Hit(kept, s, f) + Hits(pieces, s, f)
  }

  lemma TilesChain(b: Block, b1: Block, p1: seq<Block>, b2: Block, p2: seq<Block>)
    requires Tiles(b, b1, p1) && Tiles(b1, b2, p2)
    ensures Tiles(b, b2, p2 + p1)
  {
    forall s, f ensures Hit(b, s, f) == Hit(b2, s, f) + Hits(p2 + p1, s, f) {
      HitsConcat(p2, p1, s, f);
      assert Hit(b1, s, f) == Hit(b2, s, f) + Hits(p2, s, f);
    }
  }

  lemma CutFrontEnds(b: Block, skip: uint32)
    requires WellFormed(b) && Num(b.lo) + skip <= Num(b.hi)
    requires 0 < skip && skip + b.lo[|b.lo| - 1] < U32
    ensures Num(Inc(b.lo, skip)) == Num(b.lo) + skip
    ensures Num(Inc(b.lo, skip - 1)) == Num(b.lo) + skip - 1
  {
    IncExact(b.lo, skip, b.hi);
    IncExact(b.lo, skip - 1, b.hi);
  }

  lemma CutFrontTiles(b: Block, skip: uint32)
    requires WellFormed(b) && Num(b.lo) + skip <= Num(b.hi)
    requires skip + b.lo[|b.lo| - 1] < U32
    ensures Tiles(b, CutFront(b, skip).0, CutFront(b, skip).1)
    ensures WellFormed(CutFront(b, skip).0) && Num(CutFront(b, skip).0.lo) == Num(b.lo) + skip
  {
    if skip > 0 {
      CutFrontEnds(b, skip);
    }
    PieceTiles(b, CutFront(b, skip).0, CutFront(b, skip).1);
  }

  lemma CutSingleTiles(b: Block)
    requires WellFormed(b)
    ensures Tiles(b, CutSingle(b).0, CutSingle(b).1)
  {
    if b.lo != b.hi {
      if Num(b.lo) == Num(b.hi) {
        NumInjective(b.lo, b.hi);
      }
      IncExact(b.lo, 1, b.hi);
    }
    PieceTiles(b, CutSingle(b).0, CutSingle(b).1);
  }

  /** The first port that is kept after `skip` ports. */
  function CutPort(b: Block, skip: uint32): int {
    if skip == 0 then b.minPort else U16(b.minPort + skip)
  }

  /**
   The port cuts stay inside the block, for any 32-bit skip and any count of ports, even a
   negative one: the first kept port is a later port of the block, and either the cut at
   the tail is not made or it leaves ports on both sides.
   */
  predicate PortCutOk(b: Block, skip: uint32, n: int) {
    var first := CutPort(b, skip);
    && (skip > 0 ==> b.minPort < first <= b.maxPort)
    && (b.maxPort - first + 1 <= n || first <= U16(first + n - 1) < b.maxPort)
  }

  lemma CutPortsTiles(b: Block, skip: uint32)
    requires WellFormed(b) && (skip > 0 ==> b.minPort < CutPort(b, skip) <= b.maxPort)
    ensures Tiles(b, CutPorts(b, skip).0, CutPorts(b, skip).1)
    ensures CutPorts(b, skip).0 == b.(minPort := CutPort(b, skip))
  {
    PieceTiles(b, CutPorts(b, skip).0, CutPorts(b, skip).1);
  }

  lemma CutTailTiles(b: Block, n: int)
    requires WellFormed(b)
    requires b.maxPort - b.minPort + 1 <= n || b.minPort <= U16(b.minPort + n - 1) < b.maxPort
    ensures Tiles(b, CutTail(b, n).0, CutTail(b, n).1)
  {
    PieceTiles(b, CutTail(b, n).0, CutTail(b, n).1);
  }

  /** Cutting off at most one piece tiles, if each point is in exactly one part. */
  lemma PieceTiles(b: Block, kept: Block, pieces: seq<Block>)
    requires WellFormed(kept) && AllWellFormed(pieces) && |pieces| <= 1
    requires pieces == [] ==> kept == b
    requires |pieces| == 1 ==>
               kept.ttl == b.ttl == pieces[0].ttl
               && forall s :: (Contains(b, s) <==> Contains(kept, s) || Contains(pieces[0], s))
                           && !(Contains(kept, s) && Contains(pieces[0], s))
    ensures Tiles(b, kept, pieces)
  {
    forall s, f ensures Hit(b, s, f) == Hit(kept, s, f) + Hits(pieces, s, f) {
      if |pieces| == 1 {
        assert pieces == [pieces[0]];
        assert Hits(pieces, s, f) == Hit(pieces[0], s, f) + Hits([], s, f);
      }
    }
  }

  /** The calls of split_range that stay inside the block, with exact address arithmetic. */
  ghost predicate SplitFits(b: Block, skipAddr: uint32, skipPort: uint32, n: int) {
    && WellFormed(b)
    && Num(b.lo) + skipAddr <= Num(b.hi)
    && skipAddr + b.lo[|b.lo| - 1] < U32
    && 0 < n
    && b.minPort + skipPort + n - 1 <= b.maxPort
  }

  lemma CutAddressesTiles(b: Block, skip: uint32)
    requires WellFormed(b) && Num(b.lo) + skip <= Num(b.hi) && skip + b.lo[|b.lo| - 1] < U32
    ensures var (kept, pieces) := CutAddresses(b, skip);
            Tiles(b, kept, pieces) && |pieces| <= 2
    ensures var kept := CutAddresses(b, skip).0;
            && kept == b.(lo := kept.lo, hi := kept.lo)
            && Num(kept.lo) == Num(b.lo) + skip
  {
    var (b1, p1) := CutFront(b, skip);
    var (b2, p2) := CutSingle(b1);
    CutFrontTiles(b, skip);
    CutSingleTiles(b1);
    TilesChain(b, b1, p1, b2, p2);
  }

  lemma CutPortRangeTiles(b: Block, skip: uint32, n: int)
    requires WellFormed(b) && PortCutOk(b, skip, n)
    ensures var (kept, pieces) := CutPortRange(b, skip, n);
            Tiles(b, kept, pieces) && |pieces| <= 2
  {
    var (b1, p1) := CutPorts(b, skip);
    var (b2, p2) := CutTail(b1, n);
    CutPortsTiles(b, skip);
    CutTailTiles(b1, n);
    TilesChain(b, b1, p1, b2, p2);
  }

  /** Asking for ports that are there cuts well. */
  lemma FittingPortsCut(b: Block, skip: uint32, n: int)
    requires WellFormed(b) && 0 < n && b.minPort + skip + n - 1 <= b.maxPort
    ensures PortCutOk(b, skip, n)
    ensures CutPortRange(b, skip, n).0
         == b.(minPort := b.minPort + skip, maxPort := b.minPort + skip + n - 1)
  {
  }

  /**
   split_range hands out one address with exactly the wanted ports, and the at most
   four pieces that go back tile the rest of the block.
   */
  lemma SplitRangeTiles(b: Block, skipAddr: uint32, skipPort: uint32, n: int)
    requires SplitFits(b, skipAddr, skipPort, n)
    ensures var (r, pieces) := SplitRange(b, skipAddr, skipPort, n);
            && Tiles(b, r, pieces)
            && |pieces| <= 4
            && r.lo == r.hi && Num(r.lo) == Num(b.lo) + skipAddr
            && r.minPort == b.minPort + skipPort
            && r.maxPort == r.minPort + n - 1
            && r.ttl == b.ttl
  {
    var (single, p) := CutAddresses(b, skipAddr);
    var (block, q) := CutPortRange(single, skipPort, n);
    CutAddressesTiles(b, skipAddr);
    FittingPortsCut(single, skipPort, n);
    CutPortRangeTiles(single, skipPort, n);
    TilesChain(b, single, p, block, q);
  }

  // ------------------------------------------------- when exactly split_range tiles

  /** The address cuts when the register wraps: what is kept is one address below the range,
      which none of the pieces holds. */
  lemma WrappedCut(b: Block, skip: uint32)
    requires WellFormed(b) && skip + b.lo[|b.lo| - 1] >= U32
    ensures var (kept, pieces) := CutAddresses(b, skip);
            && WellFormed(kept) && kept == b.(lo := kept.lo, hi := kept.lo)
            && Num(kept.lo) < Num(b.lo)
            && forall port :: Hits(pieces, Spot(|b.lo|, Num(kept.lo), port), AnyTtl) == 0
  {
    var n := |b.lo| - 1;
    var b1 := CutFront(b, skip).0;
    IncWrapped(b.lo, skip);
    var last := skip + b.lo[n] - U32;
    assert b1.lo == b.lo[..n] + [last];
    NumAppend(b.lo[..n], last);
    assert Num(b1.lo) < Num(b.lo);
    WrappedSingle(b1);
    var (kept, pieces) := CutAddresses(b, skip);
    var front, second := CutFront(b, skip).1, CutSingle(b1).1;
    forall port ensures Hits(pieces, Spot(|b.lo|, Num(kept.lo), port), AnyTtl) == 0 {
      var s := Spot(|b.lo|, Num(kept.lo), port);
      HitsConcat(second, front, s, AnyTtl);
      assert front == [front[0]];
      assert Hits(front, s, AnyTtl) == Hit(front[0], s, AnyTtl) + Hits([], s, AnyTtl);
      assert !Contains(front[0], s);
    }
  }

  /** Keeping only the first address leaves it in no other piece. */
  lemma WrappedSingle(b: Block)
    requires |b.lo| == |b.hi| > 0 && b.lo[|b.lo| - 1] < 255 && Num(b.lo) < Num(b.hi)
    ensures CutSingle(b).0 == b.(hi := b.lo)
    ensures forall port :: Hits(CutSingle(b).1, Spot(|b.lo|, Num(b.lo), port), AnyTtl) == 0
  {
    IncExact(b.lo, 1, b.hi);
    var pieces := CutSingle(b).1;
    forall port ensures Hits(pieces, Spot(|b.lo|, Num(b.lo), port), AnyTtl) == 0 {
      var s := Spot(|b.lo|, Num(b.lo), port);
      assert pieces == [pieces[0]];
      assert Hits(pieces, s, AnyTtl) == Hit(pieces[0], s, AnyTtl) + Hits([], s, AnyTtl);
      assert !Contains(pieces[0], s);
    }
  }

  /** One port, counted in a block. */
  function PortHit(b: Block, port: int): nat {
    if b.minPort <= port <= b.maxPort then 1 else 0
  }

  function PortHits(bs: seq<Block>, port: int): nat {
    if bs == [] then 0 else PortHit(bs[0], port) + PortHits(bs[1..], port)
  }

  /** Port cuts that tile count every port right. */
  lemma TilesCountPorts(b: Block, skip: uint32, n: int, port: int)
    requires WellFormed(b)
    requires Tiles(b, CutPortRange(b, skip, n).0, CutPortRange(b, skip, n).1)
    ensures PortHit(b, port)
         == PortHit(CutPortRange(b, skip, n).0, port)
            + PortHits(CutTail(CutPorts(b, skip).0, n).1, port) + PortHits(CutPorts(b, skip).1, port)
  {
    var s := Spot(|b.lo|, Num(b.lo), port);
    var (b1, p1) := CutPorts(b, skip);
    var (b2, p2) := CutTail(b1, n);
    HitsConcat(p2, p1, s, AnyTtl);
    OnePieceHit(p1, b, port);
    OnePieceHit(p2, b, port);
    assert Hit(b, s, AnyTtl) == Hit(b2, s, AnyTtl) + Hits(p2 + p1, s, AnyTtl);
  }

  lemma OnePieceHit(bs: seq<Block>, b: Block, port: int)
    requires WellFormed(b) && |bs| <= 1 && (|bs| == 1 ==> bs[0].lo == b.lo && bs[0].hi == b.hi)
    ensures Hits(bs, Spot(|b.lo|, Num(b.lo), port), AnyTtl) == PortHits(bs, port)
  {
    if |bs| == 1 {
      assert bs == [bs[0]];
      assert PortHits(bs, port) == PortHit(bs[0], port) + PortHits([], port);
    }
  }

  lemma OnePortHit(bs: seq<Block>, port: int)
    requires |bs| == 1
    ensures PortHits(bs, port) == PortHit(bs[0], port)
  {
    assert PortHits(bs[1..], port) == 0;
  }

  /** Port cuts that tile stay inside the block. */
  lemma PortCutNeeded(b: Block, skip: uint32, n: int)
    requires WellFormed(b)
    requires Tiles(b, CutPortRange(b, skip, n).0, CutPortRange(b, skip, n).1)
    ensures PortCutOk(b, skip, n)
  {
    PiecesWellFormed(CutTail(CutPorts(b, skip).0, n).1, CutPorts(b, skip).1);
    if skip > 0 {
      FrontCutNeeded(b, skip, n, 0xFFFF);
      FrontCutNeeded(b, skip, n, b.maxPort);
    }
    TailCutNeeded(b, skip, n);
  }

  /** The kept ports start behind those that are left out in front, and inside the block. */
  lemma FrontCutNeeded(b: Block, skip: uint32, n: int, port: int)
    requires WellFormed(b) && skip > 0
    requires Tiles(b, CutPortRange(b, skip, n).0, CutPortRange(b, skip, n).1)
    requires AllWellFormed(CutTail(CutPorts(b, skip).0, n).1) && AllWellFormed(CutPorts(b, skip).1)
    ensures port == 0xFFFF ==> b.minPort < CutPort(b, skip)
    ensures port == b.maxPort && b.minPort < CutPort(b, skip) ==> CutPort(b, skip) <= b.maxPort
  {
    var p1 := CutPorts(b, skip).1;
    var p2 := CutTail(CutPorts(b, skip).0, n).1;
    assert p1[0] in p1;
    OnePortHit(p1, port);
    if p2 != [] {
      assert p2[0] in p2;
      OnePortHit(p2, port);
    }
    TilesCountPorts(b, skip, n, port);
  }

  /** A cut at the tail leaves ports on both sides. */
  lemma TailCutNeeded(b: Block, skip: uint32, n: int)
    requires WellFormed(b) && (skip > 0 ==> b.minPort < CutPort(b, skip) <= b.maxPort)
    requires Tiles(b, CutPortRange(b, skip, n).0, CutPortRange(b, skip, n).1)
    requires AllWellFormed(CutTail(CutPorts(b, skip).0, n).1)
    ensures PortCutOk(b, skip, n)
  {
    var first := CutPort(b, skip);
    var p2 := CutTail(CutPorts(b, skip).0, n).1;
    if p2 != [] {
      assert p2[0] in p2;
      OnePortHit(p2, first);
      TilesCountPorts(b, skip, n, first);
    }
  }

  lemma PiecesWellFormed(p2: seq<Block>, p1: seq<Block>)
    requires AllWellFormed(p2 + p1)
    ensures AllWellFormed(p2) && AllWellFormed(p1)
  {
    forall b | b in p2 ensures WellFormed(b) {
      assert b in p2 + p1;
    }
    forall b | b in p1 ensures WellFormed(b) {
      assert b in p2 + p1;
    }
  }

  /**
   split_range tiles, with well-formed parts, if and only if the register of inc_address
   does not wrap and the port cuts stay inside the block.
   */
  lemma SplitTilesExactly(b: Block, skipAddr: uint32, skipPort: uint32, n: int)
    requires WellFormed(b) && Num(b.lo) + skipAddr <= Num(b.hi)
    ensures Tiles(b, SplitRange(b, skipAddr, skipPort, n).0, SplitRange(b, skipAddr, skipPort, n).1)
       <==> skipAddr + b.lo[|b.lo| - 1] < U32 && PortCutOk(b, skipPort, n)
  {
    if skipAddr + b.lo[|b.lo| - 1] >= U32 {
      WrappedNeverTiles(b, skipAddr, skipPort, n);
    } else {
      UnwrappedTiles(b, skipAddr, skipPort, n);
    }
  }

  lemma WrappedNeverTiles(b: Block, skipAddr: uint32, skipPort: uint32, n: int)
    requires WellFormed(b) && skipAddr + b.lo[|b.lo| - 1] >= U32
    ensures !Tiles(b, SplitRange(b, skipAddr, skipPort, n).0, SplitRange(b, skipAddr, skipPort, n).1)
  {
    WrappedCut(b, skipAddr);
    var single := CutAddresses(b, skipAddr).0;
    var block := CutPortRange(single, skipPort, n).0;
    assert block.lo == single.lo == block.hi;
    var s := Spot(|b.lo|, Num(single.lo), block.minPort);
    assert Hit(b, s, AnyTtl) == 0;
    assert WellFormed(block) ==> Hit(block, s, AnyTtl) == 1;
  }

  lemma UnwrappedTiles(b: Block, skipAddr: uint32, skipPort: uint32, n: int)
    requires WellFormed(b) && Num(b.lo) + skipAddr <= Num(b.hi) && skipAddr + b.lo[|b.lo| - 1] < U32
    ensures Tiles(b, SplitRange(b, skipAddr, skipPort, n).0, SplitRange(b, skipAddr, skipPort, n).1)
       <==> PortCutOk(b, skipPort, n)
  {
    var (single, p) := CutAddresses(b, skipAddr);
    var (block, q) := CutPortRange(single, skipPort, n);
    CutAddressesTiles(b, skipAddr);
    if PortCutOk(b, skipPort, n) {
      CutPortRangeTiles(single, skipPort, n);
      TilesChain(b, single, p, block, q);
    } else if Tiles(b, block, q + p) {
      TilesUnchain(b, single, p, block, q);
      PortCutNeeded(single, skipPort, n);
    }
  }

  lemma TilesUnchain(b: Block, b1: Block, p1: seq<Block>, b2: Block, p2: seq<Block>)
    requires Tiles(b, b1, p1) && Tiles(b, b2, p2 + p1)
    ensures Tiles(b1, b2, p2)
  {
    PiecesWellFormed(p2, p1);
    forall s, f ensures Hit(b1, s, f) == Hit(b2, s, f) + Hits(p2, s, f) {
      HitsConcat(p2, p1, s, f);
      assert Hit(b, s, f) == Hit(b1, s, f) + Hits(p1, s, f);
    }
  }
}
