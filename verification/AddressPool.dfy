/**
 The address pool itself: two lists of range objects whose address bytes and ports
 are changed in place. Every method is proved against the functions of
 AddressPoolModel.
 */
module AddressPools {
  import opened Basics
  import opened ByteAddress
  import opened AddressBlocks
  import opened AddressPoolModel
  import Runs = AddressPoolRuns

  /** `memcpy` between two buffers of the same size. */
  method CopyBytes(dst: array<byte>, src: array<byte>)
    requires dst.Length == src.Length
    modifies dst
    ensures dst[..] == old(src[..])
  {
    forall i | 0 <= i < dst.Length {
      dst[i] := src[i];
    }
  }

  /** An AddrRange. A buffer has exactly the `size` bytes in use (4 or 16). */
  class AddrRange {
    const min: array<byte>
    const max: array<byte>
    var minPort: int
    var maxPort: int
    const ttl: int

    ghost function View(): Block
      reads this, min, max
    {
      Block(min[..], max[..], minPort, maxPort, ttl)
    }

    ghost predicate Valid() {
      min != max && min.Length == max.Length
    }

    constructor (b: Block)
      requires |b.lo| == |b.hi|
      ensures Valid() && View() == b
      ensures fresh(min) && fresh(max)
    {
      min := new byte[|b.lo|](i requires 0 <= i < |b.lo| => b.lo[i]);
      max := new byte[|b.hi|](i requires 0 <= i < |b.hi| => b.hi[i]);
      minPort := b.minPort;
      maxPort := b.maxPort;
      ttl := b.ttl;
      new;
      assert min[..] == b.lo && max[..] == b.hi;
    }

    /** `g_memdup2` of a range. */
    constructor Duplicate(r: AddrRange)
      requires r.Valid()
      ensures Valid() && View() == r.View()
      ensures fresh(min) && fresh(max)
    {
      min := new byte[r.min.Length](i requires 0 <= i < r.min.Length reads r.min => r.min[i]);
      max := new byte[r.max.Length](i requires 0 <= i < r.max.Length reads r.max => r.max[i]);
      minPort := r.minPort;
      maxPort := r.maxPort;
      ttl := r.ttl;
      new;
      assert min[..] == r.min[..] && max[..] == r.max[..];
    }
  }

  /** A GstRTSPAddress: what acquire and reserve hand to the caller. */
  class RtspAddress {
    var pool: AddressPool?
    var range: AddrRange?
    const address: seq<byte>
    const port: int
    const nPorts: int
    const ttl: int

    constructor (pool: AddressPool?, range: AddrRange?, address: seq<byte>, port: int, nPorts: int, ttl: int)
      ensures this.pool == pool && this.range == range && this.address == address
      ensures this.port == port && this.nPorts == nPorts && this.ttl == ttl
    {
      this.pool, this.range, this.address := pool, range, address;
      this.port, this.nPorts, this.ttl := port, nPorts, ttl;
    }

    /** `gst_rtsp_address_copy`: the copy is not owned by the pool. */
    method Copy() returns (copy: RtspAddress)
      ensures fresh(copy) && copy.pool == null && copy.range == range
      ensures copy.address == address && copy.port == port && copy.nPorts == nPorts && copy.ttl == ttl
    {
      copy := new RtspAddress(null, range, address, port, nPorts, ttl);
    }

    /** `gst_rtsp_address_free`: give the range back to the pool, if there is one. */
    method Free()
      requires pool != null ==> pool.Valid() && this !in pool.repr
      modifies this, pool, if pool != null then pool.repr else {}
      ensures old(pool) != null ==>
                && old(pool).Valid()
                && old(pool).repr == old(pool.repr)
                && (old(range !in pool.taken) ==> old(pool).model == old(pool.model))
                && (forall i :: 0 <= i < old(|pool.taken|) && old(pool.taken)[i] == old(range) ==>
                      old(pool).model == ReleaseAt(old(pool.model), i))
      ensures old(pool) != null ==> pool == null && range == null
      ensures old(pool) == null ==> pool == null && range == old(range)
    {
      if pool != null {
        var p := pool;
        p.Release(this);
      }
    }
  }

  class AddressPool {
    var addresses: seq<AddrRange>
    var taken: seq<AddrRange>
    var hasUnicastAddresses: bool
    ghost var model: Pool
    ghost var repr: set<object>
    ghost var owner: map<array<byte>, AddrRange>

    /** A range object of this pool, with buffers of its own. */
    ghost predicate Owns(r: AddrRange)
      reads this
    {
      && r in repr && r.min in repr && r.max in repr && r.Valid()
      && r.min in owner && owner[r.min] == r
      && r.max in owner && owner[r.max] == r
    }

    ghost predicate Valid()
      reads this, repr
      ensures Valid() ==> this in repr
    {
      && this in repr
      && (forall b :: b in owner ==> b in repr && owner[b] in repr)
      && ListOk(addresses, model.free)
      && ListOk(taken, model.taken)
      && (forall i, j :: 0 <= i < |addresses| && 0 <= j < |taken| ==> addresses[i] != taken[j])
      && model.hasUnicast == hasUnicastAddresses
    }

    /** A list of different ranges of this pool, and the blocks they show. */
    ghost predicate ListOk(ranges: seq<AddrRange>, blocks: seq<Block>)
      reads this, repr
    {
      && |ranges| == |blocks|
      && (forall i :: 0 <= i < |ranges| ==> Owns(ranges[i]) && ranges[i].View() == blocks[i])
      && (forall i, j :: 0 <= i < j < |ranges| ==> ranges[i] != ranges[j])
    }

    /** A range that is in no list at the moment. */
    ghost predicate Detached(r: AddrRange)
      reads this
    {
      Owns(r) && r !in addresses && r !in taken
    }

    constructor ()
      ensures Valid() && fresh(repr) && model == EMPTY_POOL
    {
      addresses, taken, hasUnicastAddresses := [], [], false;
      model, owner := EMPTY_POOL, map[];
      repr := {this};
    }

    /** `gst_rtsp_address_pool_clear`. */
    method Clear()
      requires Valid()
      modifies this
      ensures Valid() && repr == old(repr)
      ensures model == AddressPoolModel.Clear(old(model))
      ensures addresses == if old(taken) == [] then [] else old(addresses)
      ensures taken == old(taken)
    {
      if taken != [] {
        return;
      }
      addresses := [];
      model := model.(free := []);
    }

    /** A new range, with buffers of its own, becomes one of this pool. */
    ghost method Adopt(r: AddrRange)
      requires Valid() && r.Valid()
      requires r !in repr && r.min !in repr && r.max !in repr
      modifies this`repr, this`owner
      ensures Valid() && Detached(r) && repr == old(repr) + {r, r.min, r.max}
      ensures owner == old(owner)[r.min := r][r.max := r]
      ensures r.min !in old(owner) && r.max !in old(owner)
    {
      repr := repr + {r, r.min, r.max};
      owner := owner[r.min := r][r.max := r];
    }

    /** Put a range that is in no list at the front of the free list. */
    method Prepend(r: AddrRange)
      requires Valid() && Detached(r)
      modifies this`addresses, this`model
      ensures Valid() && addresses == [r] + old(addresses)
      ensures model == old(model).(free := [r.View()] + old(model.free))
    {
      addresses := [r] + addresses;
      model := model.(free := [r.View()] + model.free);
    }

    method NoteUnicast()
      requires Valid()
      modifies `hasUnicastAddresses, `model
      ensures Valid() && hasUnicastAddresses
      ensures model == old(model).(hasUnicast := true)
    {
      hasUnicastAddresses := true;
      model := model.(hasUnicast := true);
    }

    /** `gst_rtsp_address_pool_add_range`. */
    method AddRange(min: Option<Inet>, max: Option<Inet>, minPort: uint16, maxPort: uint16, ttl: uint8)
      returns (added: bool)
      requires Valid()
      modifies this
      ensures Valid() && fresh(repr - old(repr))
      ensures model == AddressPoolModel.AddRange(old(model), min, max, minPort, maxPort, ttl)
      ensures added <==> Addable(min, max, minPort, maxPort, ttl)
      ensures if added then |addresses| > 0 && addresses[1..] == old(addresses) else addresses == old(addresses)
      ensures added ==>
                forall s :: Contains(addresses[0].View(), s) <==> Within(min.value, max.value, minPort, maxPort, s)
      ensures taken == old(taken)
    {
      RangeHolds(min, max, minPort, maxPort, ttl);
      if minPort > maxPort {
        return false;
      }
      var isMulticast := ttl != 0;
      var lo, hi := FillAddress(min, isMulticast), FillAddress(max, isMulticast);
      if lo.None? || hi.None? {
        return false;
      }
      if |lo.value| != |hi.value| {
        return false;
      }
      if Memcmp(lo.value, hi.value) > 0 {
        return false;
      }
      var range := new AddrRange(Block(lo.value, hi.value, minPort, maxPort, ttl));
      Adopt(range);
      Prepend(range);
      if !isMulticast {
        NoteUnicast();
      }
      added := true;
    }

    // ---------------------------------------------------------------- split_range

    /** Add to the first address of a range that is in no list. */
    method IncMin(range: AddrRange, count: uint32)
      requires Valid() && Detached(range)
      modifies range.min
      ensures Valid() && Detached(range)
      ensures range.View() == old(range.View()).(lo := Inc(old(range.View().lo), count))
    {
      IncAddress(range.min, count);
    }

    /** Make a range that is in no list end at its first address. */
    method CollapseMax(range: AddrRange)
      requires Valid() && Detached(range)
      modifies range.max
      ensures Valid() && Detached(range)
      ensures range.View() == old(range.View()).(hi := old(range.View().lo))
    {
      CopyBytes(range.max, range.min);
    }

    /** Change the ports of a range that is in no list. */
    method SetPorts(range: AddrRange, minPort: int, maxPort: int)
      requires Valid() && Detached(range)
      modifies range
      ensures Valid() && Detached(range)
      ensures range.View() == old(range.View()).(minPort := minPort, maxPort := maxPort)
    {
      range.minPort, range.maxPort := minPort, maxPort;
    }

    /** Put a fresh range at the front of the free list, while `range` is in no list. */
    method PutBack(temp: AddrRange, range: AddrRange)
      requires Valid() && Detached(range) && temp.Valid()
      requires temp !in repr && temp.min !in repr && temp.max !in repr
      modifies this
      ensures Valid() && Detached(range) && taken == old(taken)
      ensures repr == old(repr) + {temp, temp.min, temp.max}
      ensures model == old(model).(free := [temp.View()] + old(model.free))
    {
      Adopt(temp);
      Prepend(temp);
    }

    /** Leave out `skip` addresses at the front of the range. */
    method SplitFront(range: AddrRange, skip: uint32)
      requires Valid() && Detached(range)
      modifies this, range, range.min, range.max
      ensures Valid() && Detached(range) && taken == old(taken)
      ensures repr >= old(repr) && fresh(repr - old(repr))
      ensures range.View() == CutFront(old(range.View()), skip).0
      ensures model == old(model).(free := CutFront(old(range.View()), skip).1 + old(model.free))
    {
      if skip > 0 {
        PutFrontBack(range, skip);
        IncMin(range, skip);
      }
    }

    /** Put the addresses that are skipped back, in a range of their own. */
    method PutFrontBack(range: AddrRange, skip: uint32)
      requires Valid() && Detached(range) && skip > 0
      modifies this
      ensures Valid() && Detached(range) && taken == old(taken)
      ensures repr >= old(repr) && fresh(repr - old(repr))
      ensures model == old(model).(free := [range.View().(hi := Inc(range.View().lo, skip - 1))] + old(model.free))
    {
      var temp := FrontPiece(range, skip);
      PutBack(temp, range);
    }

    /** The range of the addresses that are skipped. */
    method FrontPiece(range: AddrRange, skip: uint32) returns (temp: AddrRange)
      requires range.Valid() && skip > 0
      ensures fresh(temp) && fresh(temp.min) && fresh(temp.max) && temp.Valid()
      ensures temp.View() == range.View().(hi := Inc(range.View().lo, skip - 1))
    {
      temp := new AddrRange.Duplicate(range);
      CopyBytes(temp.max, temp.min);
      IncAddress(temp.max, skip - 1);
    }

    /** Keep only the first address of the range. */
    method SplitSingle(range: AddrRange)
      requires Valid() && Detached(range)
      modifies this, range, range.min, range.max
      ensures Valid() && Detached(range) && taken == old(taken)
      ensures repr >= old(repr) && fresh(repr - old(repr))
      ensures range.View() == CutSingle(old(range.View())).0
      ensures model == old(model).(free := CutSingle(old(range.View())).1 + old(model.free))
    {
      MemcmpIsNumeric(range.min[..], range.max[..]);
      if Memcmp(range.min[..], range.max[..]) != 0 {
        PutSecondBack(range);
        CollapseMax(range);
      }
    }

    /** Put all addresses but the first back, in a range of their own. */
    method PutSecondBack(range: AddrRange)
      requires Valid() && Detached(range)
      modifies this
      ensures Valid() && Detached(range) && taken == old(taken)
      ensures repr >= old(repr) && fresh(repr - old(repr))
      ensures model == old(model).(free := [range.View().(lo := Inc(range.View().lo, 1))] + old(model.free))
    {
      var temp := SecondPiece(range);
      PutBack(temp, range);
    }

    /** The range of all addresses but the first. */
    method SecondPiece(range: AddrRange) returns (temp: AddrRange)
      requires range.Valid()
      ensures fresh(temp) && fresh(temp.min) && fresh(temp.max) && temp.Valid()
      ensures temp.View() == range.View().(lo := Inc(range.View().lo, 1))
    {
      temp := new AddrRange.Duplicate(range);
      IncAddress(temp.min, 1);
    }

    /** Put the same addresses with other ports back, in a range of their own. */
    method PutPortsBack(range: AddrRange, minPort: int, maxPort: int)
      requires Valid() && Detached(range)
      modifies this
      ensures Valid() && Detached(range) && taken == old(taken)
      ensures repr >= old(repr) && fresh(repr - old(repr))
      ensures model == old(model).(free := [range.View().(minPort := minPort, maxPort := maxPort)] + old(model.free))
    {
      var temp := new AddrRange.Duplicate(range);
      temp.minPort, temp.maxPort := minPort, maxPort;
      PutBack(temp, range);
    }

    /** Leave out `skip` ports at the front of the range. */
    method SplitPorts(range: AddrRange, skip: uint32)
      requires Valid() && Detached(range)
      modifies this, range
      ensures Valid() && Detached(range) && taken == old(taken)
      ensures repr >= old(repr) && fresh(repr - old(repr))
      ensures range.View() == CutPorts(old(range.View()), skip).0
      ensures model == old(model).(free := CutPorts(old(range.View()), skip).1 + old(model.free))
    {
      if skip > 0 {
        PutPortsBack(range, range.minPort, U16(range.minPort + skip - 1));
        SetPorts(range, U16(range.minPort + skip), range.maxPort);
      }
    }

    /** Keep only the first `n` ports of the range. */
    method SplitTail(range: AddrRange, n: int)
      requires Valid() && Detached(range)
      modifies this, range
      ensures Valid() && Detached(range) && taken == old(taken)
      ensures repr >= old(repr) && fresh(repr - old(repr))
      ensures range.View() == CutTail(old(range.View()), n).0
      ensures model == old(model).(free := CutTail(old(range.View()), n).1 + old(model.free))
    {
      if range.maxPort - range.minPort + 1 > n {
        PutPortsBack(range, U16(range.minPort + n), range.maxPort);
        SetPorts(range, range.minPort, U16(range.minPort + n - 1));
      }
    }

    method SplitAddresses(range: AddrRange, skip: uint32)
      requires Valid() && Detached(range)
      modifies this, range, range.min, range.max
      ensures Valid() && Detached(range) && taken == old(taken)
      ensures repr >= old(repr) && fresh(repr - old(repr))
      ensures range.View() == CutAddresses(old(range.View()), skip).0
      ensures model == old(model).(free := CutAddresses(old(range.View()), skip).1 + old(model.free))
    {
      ghost var before, view := model.free, range.View();
      SplitFront(range, skip);
      ghost var between := range.View();
      SplitSingle(range);
      PiecesAssoc(CutSingle(between).1, CutFront(view, skip).1, before);
    }

    lemma PiecesAssoc(a: seq<Block>, b: seq<Block>, c: seq<Block>)
      ensures a + (b + c) == (a + b) + c
    {
    }

    method SplitPortRange(range: AddrRange, skip: uint32, n: int)
      requires Valid() && Detached(range)
      modifies this, range
      ensures Valid() && Detached(range) && taken == old(taken)
      ensures repr >= old(repr) && fresh(repr - old(repr))
      ensures range.View() == CutPortRange(old(range.View()), skip, n).0
      ensures model == old(model).(free := CutPortRange(old(range.View()), skip, n).1 + old(model.free))
    {
      ghost var before, view := model.free, range.View();
      SplitPorts(range, skip);
      ghost var between := range.View();
      SplitTail(range, n);
      PiecesAssoc(CutTail(between, n).1, CutPorts(view, skip).1, before);
    }

    /** `split_range`: shrink the range in place, and put what is cut off back. */
    method Split(range: AddrRange, skipAddr: uint32, skipPort: uint32, n: int)
      requires Valid() && Detached(range)
      modifies this, range, range.min, range.max
      ensures Valid() && Detached(range) && taken == old(taken)
      ensures repr >= old(repr) && fresh(repr - old(repr))
      ensures range.View() == SplitRange(old(range.View()), skipAddr, skipPort, n).0
      ensures model == old(model).(free := SplitRange(old(range.View()), skipAddr, skipPort, n).1 + old(model.free))
    {
      ghost var before, view := model.free, range.View();
      SplitAddresses(range, skipAddr);
      ghost var single := range.View();
      SplitPortRange(range, skipPort, n);
      PiecesAssoc(CutPortRange(single, skipPort, n).1, CutAddresses(view, skipAddr).1, before);
    }

    /** Take the free range at `i` out of its list. */
    method Unlink(i: nat) returns (range: AddrRange)
      requires Valid() && i < |addresses|
      modifies this`addresses, this`model
      ensures Valid() && Detached(range) && range.View() == old(model.free[i])
      ensures model == old(model).(free := old(model.free[..i] + model.free[i + 1..]))
    {
      range := addresses[i];
      assert Owns(range);
      addresses := addresses[..i] + addresses[i + 1..];
      model := model.(free := model.free[..i] + model.free[i + 1..]);
    }

    /** Record a range that is in no list as allocated. */
    method Record(range: AddrRange)
      requires Valid() && Detached(range)
      modifies this
      ensures Valid() && repr == old(repr) && taken == [range] + old(taken)
      ensures model == old(model).(taken := [range.View()] + old(model.taken))
    {
      taken := [range] + taken;
      model := model.(taken := [range.View()] + model.taken);
    }

    /** Remove the free range at `i`, split it, and record it as allocated. */
    method TakeRange(i: nat, skipAddr: uint32, skipPort: uint32, n: int) returns (result: AddrRange)
      requires Valid() && i < |addresses|
      modifies repr
      ensures Valid() && repr >= old(repr) && fresh(repr - old(repr))
      ensures model == Take(old(model), i, skipAddr, skipPort, n).0
      ensures taken == [result] + old(taken)
      ensures result.View() == Take(old(model), i, skipAddr, skipPort, n).1
    {
      ghost var before := model;
      result := Unlink(i);
      ghost var rest := model.free;
      Split(result, skipAddr, skipPort, n);
      Record(result);
      TakeSteps(before, i, skipAddr, skipPort, n, rest, model);
    }

    /** Unlinking, splitting and recording is what Take does at once. */
    lemma TakeSteps(p: Pool, i: nat, skipAddr: uint32, skipPort: uint32, n: int, rest: seq<Block>, q: Pool)
      requires i < |p.free| && rest == p.free[..i] + p.free[i + 1..]
      requires var (block, pieces) := SplitRange(p.free[i], skipAddr, skipPort, n);
               q == p.(free := pieces + rest, taken := [block] + p.taken)
      ensures Take(p, i, skipAddr, skipPort, n) == (q, SplitRange(p.free[i], skipAddr, skipPort, n).0)
    {
      var pieces := SplitRange(p.free[i], skipAddr, skipPort, n).1;
      assert pieces + p.free[..i] + p.free[i + 1..] == pieces + rest;
    }

    // ------------------------------------------------------------ acquire, reserve

    /** `gst_rtsp_address_pool_acquire_address`. */
    method AcquireAddress(flags: Flags, n: int) returns (addr: RtspAddress?)
      requires Valid()
      modifies repr
      ensures Valid() && repr >= old(repr) && fresh(repr - old(repr))
      ensures model == Acquire(old(model), flags, n).0
      ensures addr == null <==> Acquire(old(model), flags, n).1.None?
      ensures addr != null ==>
                var b := Acquire(old(model), flags, n).1.value;
                && fresh(addr) && addr !in repr
                && addr.pool == this && |taken| > 0 && addr.range == taken[0]
                && addr.address == b.lo && addr.port == b.minPort && addr.nPorts == n && addr.ttl == b.ttl
    {
      addr := null;
      if n <= 0 {
        return;
      }
      var i := 0;
      while i < |addresses|
        invariant i <= |addresses|
        invariant forall j :: 0 <= j < i ==> !Fits(model.free[j], flags, n)
      {
        var range := addresses[i];
        if || (flags.ipv4 && range.min.Length != 4)
           || (flags.ipv6 && range.min.Length != 16)
           || (flags.multicast && range.ttl == 0)
           || (flags.unicast && range.ttl != 0)
        {
          i := i + 1;
          continue;
        }
        var ports := range.maxPort - range.minPort + 1;
        var skip: uint32 := if flags.evenPort && range.minPort % 2 != 0 then 1 else 0;
        if ports - skip < n {
          i := i + 1;
          continue;
        }
        FirstFitIs(model.free, flags, n, i);
        var result := TakeRange(i, 0, skip, n);
        addr := new RtspAddress(this, result, result.min[..], result.minPort, n, result.ttl);
        return;
      }
      FirstFitIs(model.free, flags, n, i);
    }

    lemma FirstFitIs(bs: seq<Block>, flags: Flags, n: int, i: nat)
      requires i <= |bs| && forall j :: 0 <= j < i ==> !Fits(bs[j], flags, n)
      requires i < |bs| ==> Fits(bs[i], flags, n)
      ensures FirstFit(bs, flags, n) == i
    {
    }

    /** `find_address_in_ranges`, over either list: the index, or the length. */
    method FindAddressInRanges(ranges: seq<AddrRange>, ghost blocks: seq<Block>,
                               addr: seq<byte>, port: uint32, n: uint32, ttl: uint32)
      returns (i: nat)
      requires |ranges| == |blocks|
      requires forall k :: 0 <= k < |ranges| ==> ranges[k].Valid() && ranges[k].View() == blocks[k]
      ensures i == FindAddress(blocks, addr, port, n, ttl)
    {
      i := 0;
      while i < |ranges|
        invariant i <= |ranges|
        invariant forall j :: 0 <= j < i ==> !Covers(blocks[j], addr, port, n, ttl)
      {
        var range := ranges[i];
        if range.min.Length != |addr| {
          i := i + 1;
          continue;
        }
        if Memcmp(range.min[..], addr) > 0 || Memcmp(range.max[..], addr) < 0 {
          i := i + 1;
          continue;
        }
        if port < range.minPort || Wrap(port + n - 1) > range.maxPort {
          i := i + 1;
          continue;
        }
        if ttl != range.ttl {
          i := i + 1;
          continue;
        }
        break;
      }
      FindAddressIs(blocks, addr, port, n, ttl, i);
    }

    lemma FindAddressIs(bs: seq<Block>, addr: seq<byte>, port: uint32, n: uint32, ttl: uint32, i: nat)
      requires i <= |bs| && forall j :: 0 <= j < i ==> !Covers(bs[j], addr, port, n, ttl)
      requires i < |bs| ==> Covers(bs[i], addr, port, n, ttl)
      ensures FindAddress(bs, addr, port, n, ttl) == i
    {
    }

    /** Cut the requested block out of the free range at `i`, and wrap it for the caller. */
    method Grant(i: nat, input: seq<byte>, port: uint32, n: uint32) returns (addr: RtspAddress)
      requires Valid() && i < |addresses| && |input| == |model.free[i].lo|
      modifies repr
      ensures Valid() && repr >= old(repr) && fresh(repr - old(repr))
      ensures var b := old(model).free[i];
              var (q, block) := Take(old(model), i, DiffFrom(input, b.lo, 0, 0), SkipPort(b, port), ToInt(n));
              && model == q
              && addr.address == block.lo && addr.port == block.minPort && addr.ttl == block.ttl
      ensures fresh(addr) && addr !in repr && addr.nPorts == n
      ensures addr.pool == this && |taken| > 0 && addr.range == taken[0]
    {
      var skipAddr, skipPort := Distances(i, input, port);
      var r := TakeRange(i, skipAddr, skipPort, ToInt(n));
      addr := new RtspAddress(this, r, r.min[..], r.minPort, n, r.ttl);
    }

    /** How far the request lies inside the free range at `i`. */
    method Distances(i: nat, input: seq<byte>, port: uint32) returns (skipAddr: uint32, skipPort: uint32)
      requires Valid() && i < |addresses| && |input| == |model.free[i].lo|
      ensures skipAddr == DiffFrom(input, model.free[i].lo, 0, 0)
      ensures skipPort == SkipPort(model.free[i], port)
    {
      var range := addresses[i];
      var wanted := new byte[|input|](k requires 0 <= k < |input| => input[k]);
      assert wanted[..] == input;
      skipAddr := DiffAddress(wanted, range.min);
      skipPort := Wrap(port - range.minPort);
    }

    /** `gst_rtsp_address_pool_reserve_address`. */
    method ReserveAddress(ip: Option<Inet>, port: uint32, n: uint32, ttl: uint32)
      returns (result: ReserveResult, addr: RtspAddress?)
      requires Valid()
      modifies repr
      ensures Valid() && repr >= old(repr) && fresh(repr - old(repr))
      ensures model == Reserve(old(model), ip, port, n, ttl).0
      ensures result == Reserve(old(model), ip, port, n, ttl).1
      ensures addr != null <==> result == OK
      ensures addr != null ==>
                && Reserve(old(model), ip, port, n, ttl).2.Some?
                && var b := Reserve(old(model), ip, port, n, ttl).2.value;
                && fresh(addr) && addr !in repr
                && addr.pool == this && |taken| > 0 && addr.range == taken[0]
                && addr.address == b.lo && addr.port == b.minPort && addr.nPorts == n && addr.ttl == b.ttl
    {
      addr := null;
      if port == 0 || n == 0 {
        return EINVAL, null;
      }
      var input := FillAddress(ip, ttl != 0);
      if input.None? {
        return EINVAL, null;
      }
      var i := FindAddressInRanges(addresses, model.free, input.value, port, n, ttl);
      if i < |addresses| {
        addr := Grant(i, input.value, port, n);
        result := OK;
      } else {
        var j := FindAddressInRanges(taken, model.taken, input.value, port, n, ttl);
        result := if j < |taken| then ERESERVED else ERANGE;
      }
    }

    // --------------------------------------------------------------------- release

    /** `gst_rtsp_address_pool_release_address`: the range is looked up by identity. */
    method Release(addr: RtspAddress)
      requires Valid() && addr.pool == this && addr !in repr
      modifies this, addr
      ensures Valid() && repr == old(repr)
      ensures addr.pool == null && addr.range == null
      ensures old(addr.range) !in old(taken) ==> model == old(model) && taken == old(taken)
      ensures forall i :: 0 <= i < |old(taken)| && old(taken)[i] == old(addr.range) ==>
                            model == ReleaseAt(old(model), i)
    {
      var range := addr.range;
      addr.range := null;
      addr.pool := null;
      var i := 0;
      while i < |taken| && taken[i] != range
        invariant i <= |taken|
        invariant forall j :: 0 <= j < i ==> taken[j] != range
      {
        i := i + 1;
      }
      if i == |taken| {
        return;
      }
      MoveBack(i);
    }

    /** The step of a run that frees a handle is what Release does with the range object of
        the handle: finding it by identity and finding its block by value agree. */
    lemma ReleaseIsFree(w: Runs.World, h: nat, range: AddrRange, i: nat)
      requires Valid() && w.pool == model && Runs.Invariant(w)
      requires h < |w.handles| && w.handles[h].Owned? && range.View() == w.handles[h].block
      requires i < |taken| && taken[i] == range
      ensures Runs.Step(w, Runs.CallFree(h)).pool == ReleaseAt(model, i)
    {
      Runs.FreeReleasesItsRange(w, h, i);
    }

    /** Take the allocated range at `i` out of its list. */
    method UnlinkTaken(i: nat) returns (range: AddrRange)
      requires Valid() && i < |taken|
      modifies this`taken, this`model
      ensures Valid() && Detached(range) && range.View() == old(model.taken[i])
      ensures model == old(model).(taken := old(model.taken[..i] + model.taken[i + 1..]))
    {
      range := taken[i];
      assert Owns(range);
      taken := taken[..i] + taken[i + 1..];
      model := model.(taken := model.taken[..i] + model.taken[i + 1..]);
    }

    /** Move the allocated range at `i` to the front of the free list. */
    method MoveBack(i: nat)
      requires Valid() && i < |taken|
      modifies this
      ensures Valid() && repr == old(repr) && model == ReleaseAt(old(model), i)
    {
      var range := UnlinkTaken(i);
      Prepend(range);
    }
  }
}
