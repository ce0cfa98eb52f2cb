# Verified model of the RTSP server's stateful parts

A Dafny model of the parts of this repository whose correctness rests on state kept over
many calls, with proofs about single calls and about every run. Code that updates objects
and buffers in place is modelled by classes, arrays and loops; each method is proved
against a function of values, and the theorems are about those functions. The command
`dafny verify dfyconfig.toml` covers the whole project.

| files | what they model |
|---|---|
| `Basics` | what the parts share |
| `ByteAddress`, `AddressBlocks`, `AddressPoolModel`, `AddressPoolRuns`, `AddressPool` | the address pool: 32-bit arithmetic on byte strings, splitting of ranges, acquire, reserve, release, and whole runs with the handles callers hold |
| `SessionFilter` | the restartable filter over the watched sessions of a client |
| `OrderedSet` | the ordered set of the release script: a ring of nodes and an index |
| `ReplayArchive`, `ReplayBin` | the replay bin that turns one file into a 100-year archive |
| `StringReplace` | replacement in the string that is being searched |
| `SanitizeUri` | in-place removal of superfluous slashes |
| `BackPressure` | at most one unacknowledged message per interleaved channel |
| `Tunnels` | pairing of GET and POST connections |
| `Nonces`, `Htdigest` | digest authentication: the nonce table and the loader of user files |
| `MediaCache` | the shared media of a factory and the keys of URLs |
| `DispatchModel`, `DispatchRuns`, `DispatchChecks`, `Dispatch` | the request dispatcher: responses, media locks and the RTSP states of session media |

## Where the code differs from what it is for

The model follows the code. Each difference below has a concrete input or a run from the
start, and the exact condition under which the code does what it is for.

- The address arithmetic is exact if and only if the addresses are near
  (`ByteAddress.IncUndoesDiff`). IPv4 always is. For IPv6 addresses further apart than
  2^24 blocks of 256, `reserve` grants another address than it was asked for, and one
  outside of the pool if a register wraps
  (`AddressPoolModel.ReserveDeliversExactly`, `AddressPoolModel.FarReserveLeavesRange`).
- `reserve` computes the last port in 32 bits. A request that overflows can be granted, or
  be called reserved (`AddressPoolModel.ReserveAnswers`,
  `AddressPoolModel.OverflowIsGranted`). Whether a grant, overflowing or far, keeps the
  points of the pool is decided by the range it takes (`AddressPoolModel.ReserveConserves`,
  `AddressPoolModel.HugeReservationAddsPort`).
- The unicast flag of the pool stays set after `clear` (`AddressPoolRuns.UnicastFlagIsExact`,
  `AddressPoolRuns.ClearLeavesFlag`).
- A seek that enters the archive in a gap shifts timestamps by part of a period, and a
  remainder of an earlier seek is played when a new one needs none
  (`ReplayArchive.OffsetIsWholePeriods`, `ReplayArchive.GapSeek`,
  `ReplayArchive.StaleRemainder`, `ReplayArchive.PlaybackIsComplete`).
- A reverse seek without a start that enters in the last instant of a gap makes the offset
  of the timestamps wrap; an older remainder can make it wrap as well
  (`ReplayArchive.OffsetsFit`, `ReplayArchive.OffsetsFitExactly`,
  `ReplayArchive.LastInstantWraps`, `ReplayArchive.StaleRemainderWraps`).
- Closing a client removes the pending tunnel under its id even if another client put it
  there (`Tunnels.CloseSparesOthers`, `Tunnels.CloseDropsForeignHalf`).
- One kind of SETUP is answered twice, 401 and then another status
  (`DispatchRuns.OneReplyExactly`, `DispatchRuns.TwoReplies`).
- A SETUP that is refused for its transport can leave an INIT media in its session
  (`DispatchRuns.RefusedChangesNothing`, `DispatchRuns.LateRefusalLeavesMedia`).
- RECORD puts a session media into the state PLAYING. Section A.2 of RFC 2326 has a
  recording state for it, which PAUSE checks for and which no run reaches
  (`DispatchRuns.RecordPlays`, `DispatchRuns.RunIsSafe`).

## Model

| member | source | states |
|---|---|---|
| `ByteAddress.MemcmpIsNumeric` | gst-rtsp-server/gst/rtsp-server/rtsp-address-pool.c:305-306 | For equal sizes memcmp orders byte strings as the big-endian numbers they denote, and is 0 only for equal strings. |
| `ByteAddress.IncAddress` | gst-rtsp-server/gst/rtsp-server/rtsp-address-pool.c:332-344 | The in-place carry loop leaves in the buffer what adding with carry in a 32-bit register leaves, for every count and size. |
| `ByteAddress.IncUpper` | gst-rtsp-server/gst/rtsp-server/rtsp-address-pool.c:332-344 | The incremented address is never above address plus count, wrap-around or not. |
| `ByteAddress.IncExact` | gst-rtsp-server/gst/rtsp-server/rtsp-address-pool.c:332-344 | Adding is exact when the register does not wrap at the last byte and the sum stays below some address of the same size. |
| `ByteAddress.IncWrapped` | gst-rtsp-server/gst/rtsp-server/rtsp-address-pool.c:332-344 | When the register does wrap, the carry is lost: only the last byte changes. |
| `ByteAddress.DiffAddress` | gst-rtsp-server/gst/rtsp-server/rtsp-address-pool.c:346-363 | The loop with its early exit returns the 32-bit fold of the byte differences, 0 for different sizes. |
| `ByteAddress.PrefixDistanceGrows` | gst-rtsp-server/gst/rtsp-server/rtsp-address-pool.c:346-363 | For min <= max every partial sum is the difference of the two prefixes and never negative, although single byte differences may be. |
| `ByteAddress.DiffFromMeaning` | gst-rtsp-server/gst/rtsp-server/rtsp-address-pool.c:346-363 | What is returned is the distance of the prefixes at which the loop stops. |
| `ByteAddress.DiffIsDistance` | gst-rtsp-server/gst/rtsp-server/rtsp-address-pool.c:346-363 | The result is the numeric distance if the distance without the last byte fits in 24 bits, and strictly below it otherwise. |
| `ByteAddress.IncUndoesDiff` | gst-rtsp-server/gst/rtsp-server/rtsp-address-pool.c:679-687 | Adding the difference to the lower address gives the higher one back if and only if the two are near (distance without the last byte below 2^24). |
| `ByteAddress.Ipv4IsNear` | gst-rtsp-server/gst/rtsp-server/rtsp-address-pool.c:679-687 | IPv4 addresses always are near. |
| `ByteAddress.NearDoesNotWrap` | gst-rtsp-server/gst/rtsp-server/rtsp-address-pool.c:332-344 | For near addresses the register of inc_address does not wrap. |
| `ByteAddress.FarAddressIsMissed` | gst-rtsp-server/gst/rtsp-server/rtsp-address-pool.c:332-363 | IPv6 addresses 2^32 apart: the difference stops early and adding it back misses. |
| `ByteAddress.FarAddressUnderflows` | gst-rtsp-server/gst/rtsp-server/rtsp-address-pool.c:332-363 | Far IPv6 addresses for which adding the difference ends one below the address it starts from. |
| `AddressBlocks.SplitRangeTiles` | gst-rtsp-server/gst/rtsp-server/rtsp-address-pool.c:365-416 | One address with exactly n ports at the requested skips comes out, and it and the at most four well-formed pieces hold every (address, port, ttl) of the range exactly once. |
| `AddressBlocks.SplitTilesExactly` | gst-rtsp-server/gst/rtsp-server/rtsp-address-pool.c:365-416 | For any skip inside the addresses, any port skip and any count, even negative: the block and the pieces are well formed and hold every point of the range exactly once if and only if the register does not wrap and the port cuts stay inside the range. |
| `AddressBlocks.DisjointBlocks` | gst-rtsp-server/gst/rtsp-server/rtsp-address-pool.c:365-416 | Blocks at different places of a disjoint list have no (address, port) in common. |
| `AddressPoolModel.RangeOf` | gst-rtsp-server/gst/rtsp-server/rtsp-address-pool.c:280-330 | A range that add_range accepts is well formed. |
| `AddressPoolModel.RangeHolds` | gst-rtsp-server/gst/rtsp-server/rtsp-address-pool.c:280-330 | A range is accepted if and only if both texts parse as addresses of the kind the ttl asks for and of one size, and neither addresses nor ports are out of order; it then holds exactly the addresses and ports from the first to the last one given. |
| `AddressPoolModel.AddRangeAdds` | gst-rtsp-server/gst/rtsp-server/rtsp-address-pool.c:280-330 | An accepted range adds each of its points, with its ttl, to the free ones once; a rejected one changes nothing; what is allocated stays. |
| `AddressPoolModel.ClearEmpties` | gst-rtsp-server/gst/rtsp-server/rtsp-address-pool.c:205-219 | Clearing empties a pool of which nothing is allocated, and changes no other. |
| `AddressPoolModel.FirstFit` | gst-rtsp-server/gst/rtsp-server/rtsp-address-pool.c:450-475 | The walk stops at the first free range that passes the checks. |
| `AddressPoolModel.AcquireIsComplete` | gst-rtsp-server/gst/rtsp-server/rtsp-address-pool.c:448-484 | Acquire returns nothing, and changes nothing, if and only if no port is asked for or no free range of the wanted kind has room for n consecutive ports, starting even when asked. |
| `AddressPoolModel.AcquireIsSound` | gst-rtsp-server/gst/rtsp-server/rtsp-address-pool.c:448-497 | An acquired block honours every flag, is one address with exactly n ports, was free, and the points of the pool stay the same. |
| `AddressPoolModel.AcquireReleaseAcquire` | gst-rtsp-server/gst/rtsp-server/rtsp-address-pool.c:448-538 | Acquire, release, acquire with the same arguments gives the same block. |
| `AddressPoolModel.CoversMeansHolds` | gst-rtsp-server/gst/rtsp-server/rtsp-address-pool.c:589-622 | A range passes the checks exactly if it holds every requested port of the address with that ttl, when the ports fit a guint. |
| `AddressPoolModel.ReserveAnswers` | gst-rtsp-server/gst/rtsp-server/rtsp-address-pool.c:655-713 | EINVAL exactly for unusable arguments. Any other answer is right (OK iff a free range holds all of the request, ERESERVED iff only an allocated one does, else ERANGE) if and only if the last port fits a guint or no range passes the checks; nothing changes unless OK. |
| `AddressPoolModel.ReserveDeliversExactly` | gst-rtsp-server/gst/rtsp-server/rtsp-address-pool.c:672-698 | A granted reservation is the requested block if and only if port + n_ports fits a guint and the range starts near the address. |
| `AddressPoolModel.ReserveConserves` | gst-rtsp-server/gst/rtsp-server/rtsp-address-pool.c:672-689 | Whatever its arguments, a granted reservation leaves the ranges well formed and loses and adds no point if and only if its cut stays inside the range it takes: the register of inc_address does not wrap, and the 16-bit port cuts stay between the first and the last port. It does if the ports fit a guint and the range starts near the address. |
| `AddressPoolModel.FarReserveLeavesRange` | gst-rtsp-server/gst/rtsp-server/rtsp-address-pool.c:672-698 | Asked for the last address of one far IPv6 range, reserve hands out the address below its first one, which was never added. |
| `AddressPoolModel.NearRangesAreSafe` | gst-rtsp-server/gst/rtsp-server/rtsp-address-pool.c:679-687 | If the ends of every free range are near one another, every reservation starts near its range. |
| `AddressPoolModel.OverflowIsGranted` | gst-rtsp-server/gst/rtsp-server/rtsp-address-pool.c:589-622 | Ports 4294967295 and 4294967296 are granted out of a two-port range: the last port overflows to 0. |
| `AddressPoolModel.HugeReservationAddsPort` | gst-rtsp-server/gst/rtsp-server/rtsp-address-pool.c:672-698 | A request for 4294967295 ports is granted with a block without ports, and frees a port in front of the range that was never added: the count is taken as -1. |
| `AddressPoolModel.ReleaseConserves` | gst-rtsp-server/gst/rtsp-server/rtsp-address-pool.c:529-538 | Releasing moves a block back without losing or duplicating a point. |
| `AddressPoolRuns.StepKeepsInvariant` | gst-rtsp-server/gst/rtsp-server/rtsp-address-pool.c:280-727 | Free and allocated ranges well formed and disjoint, exactly the granted points, and the owned handles exactly the allocated ranges: a call keeps all that if and only if it adds no range that overlaps a granted one and grants no reservation whose cut leaves its range. |
| `AddressPoolRuns.NearReservationIsAllowed` | gst-rtsp-server/gst/rtsp-server/rtsp-address-pool.c:672-689 | Every reservation whose ports fit a guint and whose range starts near the address is such a call. |
| `AddressPoolRuns.RunIsSafe` | gst-rtsp-server/gst/rtsp-server/rtsp-address-pool.c:280-727 | Over every run: the points of the pool with their ttl are exactly the granted ones, none twice, and no two live handles share an (address, port). |
| `AddressPoolRuns.FreeUndoesAcquire` | gst-rtsp-server/gst/rtsp-server/rtsp-address-pool.c:82-93 | Freeing what acquire handed out restores the free points and the allocated list. |
| `AddressPoolRuns.CopiesReleaseNothing` | gst-rtsp-server/gst/rtsp-server/rtsp-address-pool.c:56-93 | Freeing a copy, or freeing again, gives nothing back to the pool. |
| `AddressPoolRuns.CopyOwnsNothing` | gst-rtsp-server/gst/rtsp-server/rtsp-address-pool.c:56-70 | Copying a live handle adds one to the same block that owns nothing; a freed one cannot be copied. |
| `AddressPoolRuns.FreeReleasesItsRange` | gst-rtsp-server/gst/rtsp-server/rtsp-address-pool.c:529-537 | Freeing a handle releases the one allocated range that shows its block: allocated blocks are pairwise different. |
| `AddressPoolRuns.UnicastFlagIsExact` | gst-rtsp-server/gst/rtsp-server/rtsp-address-pool.c:205-219 | has_unicast_addresses tells exactly whether the pool holds unicast addresses, and every call keeps that so if and only if it is not a clear that drops one. |
| `AddressPoolRuns.ClearLeavesFlag` | gst-rtsp-server/gst/rtsp-server/rtsp-address-pool.c:205-219 | A run, one unicast range and a clear, that leaves the flag set over an empty pool. |
| `AddressPools.AddressPool.AddRange` | gst-rtsp-server/gst/rtsp-server/rtsp-address-pool.c:280-330 | Accepts exactly the right arguments; prepends a range object that holds exactly the points from the first to the last address and port, and sets the unicast flag. |
| `AddressPools.AddressPool.Clear` | gst-rtsp-server/gst/rtsp-server/rtsp-address-pool.c:205-219 | Empties the free list unless something is allocated; the allocated list stays. |
| `AddressPools.AddressPool.Split` | gst-rtsp-server/gst/rtsp-server/rtsp-address-pool.c:365-416 | Shrinks the range object in place to the block of the pure split and prepends the pieces, all with buffers of their own. |
| `AddressPools.AddressPool.AcquireAddress` | gst-rtsp-server/gst/rtsp-server/rtsp-address-pool.c:448-499 | The walk over range objects, the in-place split and the returned address agree with the pure acquire, in result and in both lists. |
| `AddressPools.AddressPool.FindAddressInRanges` | gst-rtsp-server/gst/rtsp-server/rtsp-address-pool.c:589-622 | The walk finds the first range that covers the request. |
| `AddressPools.AddressPool.ReserveAddress` | gst-rtsp-server/gst/rtsp-server/rtsp-address-pool.c:644-727 | Result code, returned address and both lists agree with the pure reserve. |
| `AddressPools.AddressPool.Release` | gst-rtsp-server/gst/rtsp-server/rtsp-address-pool.c:510-551 | Moves the range found by identity back to the front of the free list; an unknown range changes nothing; the address is detached. |
| `AddressPools.AddressPool.ReleaseIsFree` | gst-rtsp-server/gst/rtsp-server/rtsp-address-pool.c:529-537 | Finding the range object by identity, as the code does, and finding its block by value, as the runs do, release the same range. |
| `AddressPools.RtspAddress.Copy` | gst-rtsp-server/gst/rtsp-server/rtsp-address-pool.c:56-70 | The copy has the same values and no pool. |
| `AddressPools.RtspAddress.Free` | gst-rtsp-server/gst/rtsp-server/rtsp-address-pool.c:82-93 | An owned address is released into its pool and detached; without a pool the address keeps its range and nothing else changes. |
| `SessionFilters.Client.SessionFilter` | gst-rtsp-server/gst/rtsp-server/rtsp-client.c:5396-5463 | For every callback that may watch and unwatch sessions: it ends, each visit is to the first listed session that was not visited yet, every session still listed was visited, a session is listed on return if and only if the visits watched it last or left it alone in the list, and the result is the REF answers. |
| `SessionFilters.Client.SessionFilterAll` | gst-rtsp-server/gst/rtsp-server/rtsp-client.c:5396-5463 | Without a callback every watched session is in the result once, the last one first. |
| `SessionFilters.Client.Visit` | gst-rtsp-server/gst/rtsp-server/rtsp-client.c:5428-5460 | One visit applies the changes of the callback and its answer, and a changed cookie is noticed whenever the list changed. |
| `SessionFilters.Client.WatchSession` | gst-rtsp-server/gst/rtsp-server/rtsp-client.c:661-684 | A session that is not watched goes to the front, and nothing else changes; the signal handler is connected with the first one and then stays. |
| `SessionFilters.Client.UnwatchSession` | gst-rtsp-server/gst/rtsp-server/rtsp-client.c:687-718 | The list loses the session, by position when that is known; the handler goes with the last one, and stays until then. |
| `SessionFilters.UnwatchTakesOne` | gst-rtsp-server/gst/rtsp-server/rtsp-client.c:687-718 | Unwatching takes exactly one place of a listed session out and keeps the order of the others; an unlisted one changes nothing. |
| `SessionFilters.ReferencedExactly` | gst-rtsp-server/gst/rtsp-server/rtsp-client.c:5396-5463 | A visited session is in the result, once, if and only if it answered REF. |
| `SessionFilters.RemovedIsGone` | gst-rtsp-server/gst/rtsp-server/rtsp-client.c:5396-5463 | A session that answered REMOVE is not listed on return, unless a later callback watched it again. |
| `SessionFilters.KeptIsListed` | gst-rtsp-server/gst/rtsp-server/rtsp-client.c:5396-5463 | A session that nobody removed is still listed on return. |
| `SessionFilters.ListedExactly` | gst-rtsp-server/gst/rtsp-server/rtsp-client.c:661-718 | A session is listed after some visits if and only if the last change about it was to watch it, or there was none and it was listed before. |
| `SessionFilters.OrderIsKept` | gst-rtsp-server/gst/rtsp-server/rtsp-client.c:661-718 | Sessions that nobody unwatches stay in the order they were listed in, whatever else is watched and unwatched. |
| `SessionFilters.ReferencedLatestFirst` | gst-rtsp-server/gst/rtsp-server/rtsp-client.c:5396-5463 | The result lists later visits first. |
| `SessionFilters.AfterKeeps` | gst-rtsp-server/gst/rtsp-server/rtsp-client.c:5396-5463 | The list never gets duplicates. |
| `OrderedSets.OrderedSet.Add` | gst-docs-1.18.6/scripts/release.py:30-34 | Appends a new key and nothing else; ring and index stay one duplicate-free sequence. |
| `OrderedSets.OrderedSet.Discard` | gst-docs-1.18.6/scripts/release.py:54-58 | Removes exactly the key and keeps the order of the rest. |
| `OrderedSets.OrderedSet.Iterate` | gst-docs-1.18.6/scripts/release.py:60-65 | Forward iteration ends and yields the sequence. |
| `OrderedSets.OrderedSet.IterateReversed` | gst-docs-1.18.6/scripts/release.py:67-72 | The keys from the last to the first, following the backward links. |
| `OrderedSets.OrderedSet.Pop` | gst-docs-1.18.6/scripts/release.py:74-79 | Removes and returns the last or the first key; None for the KeyError of an empty set. |
| `OrderedSets.OrderedSet.Len` | gst-docs-1.18.6/scripts/release.py:23-24 | The size of the index is the length of the sequence. |
| `OrderedSets.OrderedSet.Equals` | gst-docs-1.18.6/scripts/release.py:86-89 | Two ordered sets are equal exactly if they have the same keys in the same order. |
| `OrderedSets.OrderedSet.EqualsSet` | gst-docs-1.18.6/scripts/release.py:86-89 | Compared with another set, order does not matter. |
| `OrderedSets.OrderedSet.From` | gst-docs-1.18.6/scripts/release.py:16-21 | Built from an iterable: each element added in turn. |
| `OrderedSets.OrderedSet.PickleRoundTrip` | gst-docs-1.18.6/scripts/release.py:36-52 | Restoring the pickled state gives an equal set, also for the empty set. |
| `OrderedSets.DiscardedAt` | gst-docs-1.18.6/scripts/release.py:54-58 | Discarding the key at a place of a duplicate-free sequence leaves what is before and behind that place. |
| `OrderedSets.DiscardUndoesAdd` | gst-docs-1.18.6/scripts/release.py:30-58 | Discarding undoes adding a new key. |
| `OrderedSets.AddedAllMembers` | gst-docs-1.18.6/scripts/release.py:16-34 | Building from an iterable keeps what was there as a prefix and adds exactly the elements, without duplicates. |
| `OrderedSets.AddedAllOrder` | gst-docs-1.18.6/scripts/release.py:16-34 | New elements keep the order of their first occurrences. |
| `ReplayArchive.PlaybackShowsPeriods` | gst-rtsp-server/examples/test-onvif-server.c:157-180 | For every forwarded seek, in reverse also without a start, and every remainder left over from before: each repetition shows exactly what the archive has in its period, k + j or in reverse k - j and never below 0, if and only if the entry is not in a gap and nothing else was pending. |
| `ReplayArchive.PlaybackIsComplete` | gst-rtsp-server/examples/test-onvif-server.c:157-215 | For every forwarded seek: what is shown is exactly what the archive has between start and stop, if and only if the entry is not in a gap and nothing else was pending. |
| `ReplayArchive.PlaybackConserves` | gst-rtsp-server/examples/test-onvif-server.c:372-403 | For every forwarded seek: played lengths, one gap between repetitions and a residue below one gap add up to stop - start, if and only if no older remainder is used. |
| `ReplayBins.ReplayBin.EmitBuffer` | gst-rtsp-server/examples/test-onvif-server.c:468-476 | A buffer inside the part of the file that is played comes out unwrapped, between start and stop, and equal to the file time modulo the period; a buffer behind that part is dropped. |
| `ReplayArchive.OffsetIsWholePeriods` | gst-rtsp-server/examples/test-onvif-server.c:334-337 | Of a forwarded seek, the first offset is a whole number of periods if and only if the playback does not enter in a gap. |
| `ReplayArchive.GapStartsFile` | gst-rtsp-server/examples/test-onvif-server.c:157-180 | A playback that enters in a gap shows the file from its own edge right at the entry, and as much of it as is asked for behind the gap. |
| `ReplayArchive.PlaybackOffsets` | gst-rtsp-server/examples/test-onvif-server.c:411-414 | Repetition j is shifted by j periods from the first one, whatever is played. |
| `ReplayArchive.OffsetsFit` | gst-rtsp-server/examples/test-onvif-server.c:334-414 | Unless an older remainder is played, no offset wraps, and each lies between 0 and stop, if and only if the seek does not enter, without a start, in the last instant of a gap. |
| `ReplayArchive.OffsetsFitExactly` | gst-rtsp-server/examples/test-onvif-server.c:334-414 | Whatever is left over from before: no offset wraps in 64 bits if and only if the last one, given in closed form by the seek, the remainder and the length of the file, does not. |
| `ReplayArchive.LastInstantWraps` | gst-rtsp-server/examples/test-onvif-server.c:170-215 | A reverse seek without a start, from the last instant of a gap: the second repetition lies before the beginning, and its timestamp wraps to the one that stands for none. |
| `ReplayArchive.GapSeek` | gst-rtsp-server/examples/test-onvif-server.c:157-168 | A seek to second 12 of a 10 second file, in the gap and forwarded: the file starts there, shifted by 12 seconds. |
| `ReplayArchive.StaleRemainder` | gst-rtsp-server/examples/test-onvif-server.c:213-215 | Two seeks in a row: what the first one left is played behind the end of the second one. |
| `ReplayArchive.StaleRemainderWraps` | gst-rtsp-server/examples/test-onvif-server.c:213-215 | Two seeks in a row, the second in reverse: what the first one left is played before the beginning, with offsets that wrap. |
| `ReplayBins.ReplayBin.PlayFirst` | gst-rtsp-server/examples/test-onvif-server.c:130-340 | The seek and the first segment: the bin forwards exactly the seeks with something to play, its offset is that of the first repetition, and a whole number of periods if and only if the entry is not in a gap. |
| `ReplayBins.ReplayBin.TranslateSeek` | gst-rtsp-server/examples/test-onvif-server.c:130-230 | For every seek, times that are not given included, the branches of the translation give the first span and the remainder; a seek with nothing to play is answered by the bin. |
| `ReplayBins.ReplayBin.TranslateSegment` | gst-rtsp-server/examples/test-onvif-server.c:297-364 | The offset is taken once per seek, from the start forwards and from the stop in reverse, and the segment is moved by it. |
| `ReplayBins.ReplayBin.HandleSegmentDone` | gst-rtsp-server/examples/test-onvif-server.c:367-424 | With at least a gap remaining the next span of the file is asked for and the offset moves one period, else EOS and remainder 0. |
| `ReplayBins.ReplayBin.Play` | gst-rtsp-server/examples/test-onvif-server.c:130-424 | The seek and its segment-done events end, and play exactly the repetitions of the playback with 64-bit offsets, whatever was left over; those are the offsets of the archive if and only if the last one does not wrap, and when no older remainder is played if and only if the seek does not enter in the last instant of a gap without a start. |
| `StringReplacement.GString.Replace` | gst-rtsp-server/gst/glib-compat-private.h:51-75 | For every pattern, replacement and limit the loop ends, all occurrences, or with a limit the first ones up to that many, are replaced, and the count is their number: the string becomes the pieces that are left, joined by the replacement. |
| `StringReplacement.PiecesAreCut` | gst-rtsp-server/gst/glib-compat-private.h:55-73 | The pieces end at first occurrences from left to right, at most limit of them are cut, and without reaching the limit none is left over. |
| `StringReplacement.CutIsUnique` | gst-rtsp-server/gst/glib-compat-private.h:55-73 | No other way of cutting has that property: the pieces are determined by the string. |
| `StringReplacement.PiecesJoin` | gst-rtsp-server/gst/glib-compat-private.h:55-73 | The pieces joined by the pattern are the original string. |
| `StringReplacement.EmptyPatternPieces` | gst-rtsp-server/gst/glib-compat-private.h:62-70 | The empty pattern matches at every gap and at both ends, up to the limit. |
| `StringReplacement.JoinLength` | gst-rtsp-server/gst/glib-compat-private.h:55-73 | The length changes by the count times the difference of the two lengths. |
| `StringReplacement.LimitCutsFirst` | gst-rtsp-server/gst/glib-compat-private.h:51-75 | A limit of 0 replaces every occurrence, any other one the first ones, as many as it says or as there are. |
| `UriSanitizer.SanitizeUri` | gst-rtsp-server/gst/rtsp-server/rtsp-client.c:3850-3874 | The buffer holds the sanitized path as a C string, and nothing behind the old end changes. |
| `UriSanitizer.CollapseInPlace` | gst-rtsp-server/gst/rtsp-server/rtsp-client.c:3850-3867 | The loop never reads a cell it has overwritten and keeps what the pure slash collapse keeps. |
| `UriSanitizer.SanitizedIsSegments` | gst-rtsp-server/gst/rtsp-server/rtsp-client.c:3849-3874 | The result is the leading slash, if any, and the non-empty segments with single slashes between them. |
| `UriSanitizer.SanitizedKeepsSegments` | gst-rtsp-server/gst/rtsp-server/rtsp-client.c:3849-3874 | The list of non-empty segments and the leading slash are kept. |
| `UriSanitizer.SanitizedIsClean` | gst-rtsp-server/gst/rtsp-server/rtsp-client.c:3849-3874 | No double slash, and a trailing slash only in "/" alone. |
| `UriSanitizer.SanitizedTwice` | gst-rtsp-server/gst/rtsp-server/rtsp-client.c:3849-3874 | Sanitizing is idempotent. |
| `BackPressure.RunIsSafe` | gst-rtsp-server/gst/rtsp-server/rtsp-client.c:1205-1249 | In every interleaving a channel is busy exactly while one message of it is queued, never two; accepted and finished messages differ by that one; with nothing queued no channel is busy. |
| `BackPressure.StepKeepsInvariant` | gst-rtsp-server/gst/rtsp-server/rtsp-client.c:4910-5002 | Every send and report keeps busy channels and queued data messages in one-to-one correspondence. |
| `BackPressure.ReportFreesItsChannel` | gst-rtsp-server/gst/rtsp-server/rtsp-client.c:4980-5002 | A report clears exactly the channel that recorded its id and finishes one message of it; no other channel changes, and no id counts twice. |
| `BackPressure.SendOnIdle` | gst-rtsp-server/gst/rtsp-server/rtsp-client.c:4913-4970 | A queued data message makes its idle channel busy with its id, one that is sent at once leaves it idle, a failed one changes nothing; no other channel is touched. |
| `BackPressure.SendOtherQueues` | gst-rtsp-server/gst/rtsp-server/rtsp-client.c:4913-4970 | A message that is not data is noted by the watch while it is queued, and touches no channel. |
| `BackPressure.BusyUntilReport` | gst-rtsp-server/gst/rtsp-server/rtsp-client.c:1216-1231 | Once a message is queued its channel stays busy with its id, and takes and finishes no other one, until that id is reported, whatever else happens. |
| `BackPressure.ChannelsAreIndependent` | gst-rtsp-server/gst/rtsp-server/rtsp-client.c:1138-1299 | In every interleaving each known channel is a one-message machine of its own: it waits for the id of the message it queued last until that is reported, and its accepted sends are those that did not fail while it was idle. |
| `BackPressure.Client.AddDataSeq` | gst-rtsp-server/gst/rtsp-server/rtsp-client.c:1146-1154 | Adds a channel once; the array keeps one element per channel. |
| `BackPressure.Client.GetDataChannel` | gst-rtsp-server/gst/rtsp-server/rtsp-client.c:1176-1193 | Finds the channel that waits for an id, if one does. |
| `BackPressure.Client.CheckBackPressure` | gst-rtsp-server/gst/rtsp-server/rtsp-client.c:1245-1249 | True exactly while the channel has a queued message. |
| `BackPressure.Client.DoSendMessages` | gst-rtsp-server/gst/rtsp-server/rtsp-client.c:4910-4971 | Records the id of a queued message for the channel of the first data message, and for no other; tells its transport when it was sent at once. |
| `BackPressure.Client.DoSendData` | gst-rtsp-server/gst/rtsp-server/rtsp-client.c:1205-1243 | Refuses while the channel is busy, without changing anything; otherwise a queued message makes it busy and an accepted one is counted. |
| `BackPressure.Client.DoSendDataList` | gst-rtsp-server/gst/rtsp-server/rtsp-client.c:1251-1302 | The same for lists; an empty list is sent but never makes the channel busy. |
| `BackPressure.Client.HandleMessageSent` | gst-rtsp-server/gst/rtsp-server/rtsp-client.c:4980-5002 | Clears the recorded id wherever it stands and nothing else, and tells the transport of the channel. |
| `Tunnels.StepKeepsInvariant` | gst-rtsp-server/gst/rtsp-server/rtsp-client.c:5091-5252 | Every step keeps the table and the places of the clients in agreement: a half is pending or in the hands of at most one client. |
| `Tunnels.RunIsSafe` | gst-rtsp-server/gst/rtsp-server/rtsp-client.c:5091-5252 | In every interleaving a join pairs different clients with one tunnel id, a GET and a POST, the older with a live watch; no client is the newer one twice, and each wait ends in at most one join. |
| `Tunnels.EntryIsNeverOverwritten` | gst-rtsp-server/gst/rtsp-server/rtsp-client.c:5091-5127 | No step replaces a pending entry by another. |
| `Tunnels.LostWaitsAgain` | gst-rtsp-server/gst/rtsp-server/rtsp-client.c:5029-5127 | An owner that lost its tunnel waits under its id again if that is free, and else is alone without changing the table. |
| `Tunnels.BeginTakesOrWaits` | gst-rtsp-server/gst/rtsp-server/rtsp-client.c:5129-5178 | A new half takes the one that waits under its id out of the table, or waits there, or is alone without an id. |
| `Tunnels.FinishJoinsExactly` | gst-rtsp-server/gst/rtsp-server/rtsp-client.c:5180-5222 | The half in hand is joined exactly if it has a watch and is of the other kind, and owns the tunnel then; otherwise both are alone. |
| `Tunnels.HalvesJoin` | gst-rtsp-server/gst/rtsp-server/rtsp-client.c:5129-5222 | A half that waits with a live watch is joined by the next half of the other kind with its id, if and only if its watch does not go while it is in hand. |
| `Tunnels.CloseClearsItsId` | gst-rtsp-server/gst/rtsp-server/rtsp-client.c:1327-1333 | Closing a client takes the entry of its tunnel id out and leaves whoever waited there alone; without an entry it changes nothing. |
| `Tunnels.CloseSparesOthers` | gst-rtsp-server/gst/rtsp-server/rtsp-client.c:5004-5027 | Closing a client leaves the pending halves of all others alone if and only if no other client is pending with its tunnel id. |
| `Tunnels.CloseDropsForeignHalf` | gst-rtsp-server/gst/rtsp-server/rtsp-client.c:1327-1333 | A run in which closing a refused client drops the pending half of another one. |
| `Tunnels.TunnelTable.RememberTunnel` | gst-rtsp-server/gst/rtsp-server/rtsp-client.c:5091-5127 | A lost tunnel is remembered if its id is free; it says whether it was. |
| `Tunnels.TunnelTable.ExchangeHalf` | gst-rtsp-server/gst/rtsp-server/rtsp-client.c:5144-5178 | Takes a waiting half out of the table or waits there. |
| `Tunnels.TunnelTable.FinishTunnel` | gst-rtsp-server/gst/rtsp-server/rtsp-client.c:5180-5222 | Joins exactly if the older client has a watch and the other half; 503 and 400 for the two refusals. |
| `Tunnels.TunnelTable.CloseClient` | gst-rtsp-server/gst/rtsp-server/rtsp-client.c:1312-1348 | Removes the entry of the tunnel id, whoever owns it. |
| `Nonces.RunBoundsAge` | gst-rtsp-server/gst/rtsp-server/rtsp-auth.c:926-952 | In every run, right after a challenge every unclaimed nonce is younger than 60 seconds, and younger than 30 if the challenge swept. |
| `Nonces.StepKeepsInvariant` | gst-rtsp-server/gst/rtsp-server/rtsp-auth.c:750-844 | Every challenge, use and client loss keeps unclaimed nonces younger than 30 seconds at the last sweep, and one hook per claimed nonce. |
| `Nonces.ClaimedStaysUntilGone` | gst-rtsp-server/gst/rtsp-server/rtsp-auth.c:750-762 | A claimed nonce stays with its client for every event but one: that client going away. |
| `Nonces.UnclaimedLeavesStale` | gst-rtsp-server/gst/rtsp-server/rtsp-auth.c:936-951 | An unclaimed nonce leaves if and only if a sweep finds it at least 30 seconds old. |
| `Nonces.AgeBoundIsSharp` | gst-rtsp-server/gst/rtsp-server/rtsp-auth.c:930-950 | A run that keeps an unclaimed nonce for 59.999998 seconds. |
| `Nonces.ChallengeIssues` | gst-rtsp-server/gst/rtsp-server/rtsp-auth.c:902-954 | A challenge hands out a nonce that is there, unclaimed, with the time and the address of the challenge. |
| `Nonces.FirstUseClaims` | gst-rtsp-server/gst/rtsp-server/rtsp-auth.c:832-844 | The first use of a nonce with a known user name claims it for its client; any other use changes nothing. |
| `Nonces.DigestReadsNames` | gst-rtsp-server/gst/rtsp-server/rtsp-auth.c:780-798 | The five values are those given first for realm, username, nonce, response and uri. |
| `Nonces.NonceTable.GenerateNonce` | gst-rtsp-server/gst/rtsp-server/rtsp-auth.c:902-954 | Issues the nonce, and sweeps when 30 seconds have passed since the last sweep. |
| `Nonces.NonceTable.Sweep` | gst-rtsp-server/gst/rtsp-server/rtsp-auth.c:936-951 | The iteration removes exactly the unclaimed nonces of 30 seconds and more. |
| `Nonces.NonceTable.DigestAuth` | gst-rtsp-server/gst/rtsp-server/rtsp-auth.c:764-844 | Accepts exactly complete parameters of a known user with a known nonce, from its address and its client, with the response the library computes for them; an unclaimed nonce is claimed even on refusal. |
| `Nonces.NonceTable.ReadParams` | gst-rtsp-server/gst/rtsp-server/rtsp-auth.c:780-798 | The loop takes the first value given for each of the five names, in any order, and fails if one is missing. |
| `Nonces.NonceTable.ClientFinalized` | gst-rtsp-server/gst/rtsp-server/rtsp-auth.c:750-762 | Drops exactly the nonces the client claimed. |
| `Htdigest.Auth.ParseHtdigest` | gst-rtsp-server/gst/rtsp-server/rtsp-auth.c:598-667 | All or nothing: the table gets the loaded entries over the old ones, or stays as it was. |
| `Htdigest.Auth.ParseContents` | gst-rtsp-server/gst/rtsp-server/rtsp-auth.c:623-657 | The loop that cuts the buffer at newlines parses exactly the lines of the text. |
| `Htdigest.LineIsValid` | gst-rtsp-server/gst/rtsp-server/rtsp-auth.c:637-647 | A line is valid exactly if it is three colon-separated fields, the last of 32 characters, and then those are parsed. |
| `Htdigest.FailsOnAnyBadLine` | gst-rtsp-server/gst/rtsp-server/rtsp-auth.c:623-657 | Loading fails if and only if some line is invalid; otherwise there is one record per line, in order. |
| `Htdigest.TableHoldsLast` | gst-rtsp-server/gst/rtsp-server/rtsp-auth.c:574-580 | A user gets the hash of the last line. |
| `Htdigest.TableHasOnlyUsers` | gst-rtsp-server/gst/rtsp-server/rtsp-auth.c:574-580 | Exactly the users of the file are added. |
| `Htdigest.LinesReadBack` | gst-rtsp-server/gst/rtsp-server/rtsp-auth.c:623-657 | No line holds a newline, and the lines put together are the text, also a last one that no newline ends. |
| `Htdigest.LoadedHoldsLast` | gst-rtsp-server/gst/rtsp-server/rtsp-auth.c:574-580 | Exactly the users of the file get an entry: the hash of their last line, as an md5, with the token of the call. |
| `Htdigest.ParseUndoesPrint` | gst-rtsp-server/gst/rtsp-server/rtsp-auth.c:623-657 | Parsing a printed list of valid records recovers it. |
| `MediaCache.KeyReadsBack` | gst-rtsp-server/gst/rtsp-server/rtsp-media-factory.c:1959-1975 | Port, path and query can be read back from a key. |
| `MediaCache.KeysDoNotCollide` | gst-rtsp-server/gst/rtsp-server/rtsp-media-factory.c:1959-1975 | Keys of different parsed URLs are different. |
| `MediaCache.KeysWouldCollide` | gst-rtsp-server/gst/rtsp-server/rtsp-media-factory.c:1959-1975 | With a digit before the path or a question mark in it they would not be. |
| `MediaCache.StepKeepsInvariant` | gst-rtsp-server/gst/rtsp-server/rtsp-media-factory.c:1576-1641 | Every step keeps each cached media shared, usable and under the key of its own URL. |
| `MediaCache.RunNeverConfuses` | gst-rtsp-server/gst/rtsp-server/rtsp-media-factory.c:1576-1641 | In every interleaving a cache hit hands out a shared media built for the same URL, a media has one key at most, and one that is gone has none. |
| `MediaCache.UnpreparedIsGone` | gst-rtsp-server/gst/rtsp-server/rtsp-media-factory.c:1501-1517 | Unpreparing a media that is not reusable removes all its keys and no others. |
| `MediaCache.SharedIsCached` | gst-rtsp-server/gst/rtsp-server/rtsp-media-factory.c:1611-1641 | A step that builds a shared media caches it under the key of its URL; apart from unpreparing, no other key changes. |
| `MediaCache.HitWaits` | gst-rtsp-server/gst/rtsp-server/rtsp-media-factory.c:1579-1608 | A hit notes its caller with its URL and the cached media until that is used or replaced; no other step touches who waits. |
| `MediaCache.CacheHoldsLatest` | gst-rtsp-server/gst/rtsp-server/rtsp-media-factory.c:1501-1641 | In every interleaving: a parsed URL is answered from the cache if and only if a shared media was built for it and the latest of them was not unprepared since as not reusable, and then with that one. |
| `MediaCache.Factory.LookUp` | gst-rtsp-server/gst/rtsp-server/rtsp-media-factory.c:1576-1641 | A hit hands out the media under the key and leaves the table alone, a miss builds one and puts it there if it is shared. |
| `MediaCache.Factory.UseOrRebuild` | gst-rtsp-server/gst/rtsp-server/rtsp-media-factory.c:1587-1608 | A found media is used if it can still be shared, else another one is built and cached if it is shared. |
| `MediaCache.Factory.MediaUnprepared` | gst-rtsp-server/gst/rtsp-server/rtsp-media-factory.c:1501-1517 | The removal loop drops exactly the entries of the media. |
| `DispatchModel.Best` | gst-rtsp-server/gst/rtsp-server/rtsp-session.c:346-384 | The walk finds the longest managed path that covers the request, or that none but the empty path does. |
| `Dispatcher.Client.GetMedia` | gst-rtsp-server/gst/rtsp-server/rtsp-session.c:346-384 | The loop over the managed media returns that media and how much of the path it matched. |
| `Dispatcher.Client.EnsureAuthenticated` | gst-rtsp-server/gst/rtsp-server/rtsp-auth.c:973-1005 | Succeeds exactly for a default token or accepted credentials; otherwise one 401 is sent. |
| `Dispatcher.Client.CheckClientSettings` | gst-rtsp-server/gst/rtsp-server/rtsp-auth.c:1122-1131 | True exactly for an authenticated client whose token has the permission; sends a 401 to an unauthenticated one although the caller goes on. |
| `Dispatcher.Client.FindMedia` | gst-rtsp-server/gst/rtsp-server/rtsp-client.c:990-1127 | Finds, reuses or makes the media: on success nothing is sent and it is locked once, on failure exactly the failing status is sent and no lock is left. |
| `Dispatcher.Client.HandleTeardown` | gst-rtsp-server/gst/rtsp-server/rtsp-client.c:1455-1581 | Sends the status of the first failing check or 200, releases the media only on 200, and leaves the locks as they were. |
| `Dispatcher.Client.HandlePause` | gst-rtsp-server/gst/rtsp-server/rtsp-client.c:1713-1851 | The same for PAUSE, which makes the media READY. |
| `Dispatcher.Client.HandlePlay` | gst-rtsp-server/gst/rtsp-server/rtsp-client.c:2080-2329 | The same for PLAY, which makes the media PLAYING; each of its exits sends once and unlocks. |
| `Dispatcher.Client.PreparePlay` | gst-rtsp-server/gst/rtsp-server/rtsp-client.c:2156-2198 | The exits of PLAY behind the pipeline: each failing one sends its status and unlocks. |
| `Dispatcher.Client.HandleRecord` | gst-rtsp-server/gst/rtsp-server/rtsp-client.c:3657-3795 | The same for RECORD, which also makes the media PLAYING and takes no lock. |
| `Dispatcher.Client.HandleDescribe` | gst-rtsp-server/gst/rtsp-server/rtsp-client.c:3297-3435 | One response, locks as before, and only the cached media may change. |
| `Dispatcher.Client.HandleAnnounce` | gst-rtsp-server/gst/rtsp-server/rtsp-client.c:3477-3655 | The same for ANNOUNCE. |
| `Dispatcher.Client.SetupTransport` | gst-rtsp-server/gst/rtsp-server/rtsp-client.c:2929-3242 | From the session on: what is sent, managed, taken back and unlocked on every path out. |
| `Dispatcher.Client.SetupMode` | gst-rtsp-server/gst/rtsp-server/rtsp-client.c:2929-2991 | The exits of SETUP before the transport: the one whose reply is already sent and those that send, each with its unlock and with a new session taken back. |
| `Dispatcher.Client.HandleSetup` | gst-rtsp-server/gst/rtsp-server/rtsp-client.c:2793-3242 | All responses, all changes of sessions, cached media and pipelined ids, and locks as before, for every path through SETUP. |
| `Dispatcher.Client.HandleRequest` | gst-rtsp-server/gst/rtsp-server/rtsp-client.c:3983-4205 | Every request sends exactly the specified responses, makes exactly the specified changes, and returns with the media locks held on entry. |
| `DispatchChecks.CoversBelow` | gst-rtsp-server/gst/rtsp-server/rtsp-session.c:346-384 | A managed path covers itself, what lies below it behind a slash and, if it is a slash, every absolute path; nothing else. |
| `DispatchChecks.PrefixIsNotEnough` | gst-rtsp-server/gst/rtsp-server/rtsp-session.c:346-384 | /live covers /live and /live/stream=0, and not /live2. |
| `DispatchChecks.ChecksDecide` | gst-rtsp-server/gst/rtsp-server/rtsp-client.c:990-4205 | Every request is answered by the first of a list of independent checks that does not hold, and accepted if and only if all hold; for every method, with the checks in the order of the code. |
| `DispatchChecks.SingleObjection` | gst-rtsp-server/gst/rtsp-server/rtsp-client.c:990-4205 | A request with a single objection gets the status of that objection; it changes no session if and only if it is not a SETUP refused late. |
| `DispatchChecks.DescribeAccepted` | gst-rtsp-server/gst/rtsp-server/rtsp-client.c:3297-3435 | DESCRIBE is accepted if and only if the client may see and build what is mounted at the whole path, that is cached or can be made and prepared, plays and has an SDP, and nothing else objects. |
| `DispatchChecks.AnnounceAccepted` | gst-rtsp-server/gst/rtsp-server/rtsp-client.c:3477-3655 | ANNOUNCE is accepted if and only if the same holds for a media that records, with an SDP that is understood, before RTSP 2.0. |
| `DispatchChecks.SetupAccepted` | gst-rtsp-server/gst/rtsp-server/rtsp-client.c:2793-3242 | SETUP is accepted if and only if the media is managed already or at hand, its stream, session and headers are all right, and the transport can be configured, with a ttl if the client chooses the address; only the last point makes a late refusal. |
| `DispatchChecks.ManagedAccepted` | gst-rtsp-server/gst/rtsp-server/rtsp-client.c:1455-3795 | PLAY, RECORD, PAUSE and TEARDOWN are accepted if and only if the media is managed under the whole path, in the right state, and nothing outside objects. |
| `DispatchChecks.PermissionsRefuse` | gst-rtsp-server/gst/rtsp-server/rtsp-auth.c:1062-1117 | A DESCRIBE, ANNOUNCE or SETUP that would be accepted but for the permission to see or to build gets the status of that permission alone, and changes nothing. |
| `DispatchChecks.DescribedIsKept` | gst-rtsp-server/gst/rtsp-server/rtsp-client.c:1019-1054 | After an accepted DESCRIBE or ANNOUNCE the client keeps the media of the path: the same as before, or the new one. |
| `DispatchChecks.KeptChanges` | gst-rtsp-server/gst/rtsp-server/rtsp-client.c:1019-1054 | What the client keeps changes exactly when a media is asked for: to the new one, or to none if it cannot be made; and a SETUP that gets to its transport gives it away. |
| `DispatchChecks.SetupManages` | gst-rtsp-server/gst/rtsp-server/rtsp-client.c:2929-3050 | After an accepted SETUP of a new media its session manages exactly that media first, under the mounted path and ready to play. |
| `DispatchChecks.PipelinedFollow` | gst-rtsp-server/gst/rtsp-server/rtsp-client.c:2905-2935 | Requests with the pipelined id of an accepted SETUP belong to its session; a new session forgets all other ids. |
| `DispatchRuns.OneReplyExactly` | gst-rtsp-server/gst/rtsp-server/rtsp-auth.c:1122-1131 | A request gets one response, or two exactly for a multicast SETUP of an already managed media by a client that neither the URL check nor a default token nor credentials authenticate. |
| `DispatchRuns.OneReply` | gst-rtsp-server/gst/rtsp-server/rtsp-client.c:3983-4205 | Without an auth object, with a default token, or with SETUP authenticated, every request gets exactly one response. |
| `DispatchRuns.ParametersAreNotUnderstood` | gst-rtsp-server/gst/rtsp-server/rtsp-client.c:1603-1711 | Unless something outside objects, any body is answered 451, and without one only the GET_PARAMETER of RTSP 2.0 is refused; nothing changes. |
| `DispatchRuns.TwoReplies` | gst-rtsp-server/gst/rtsp-server/rtsp-client.c:2442-2451 | A run: an authenticated SETUP, and then the same without credentials, which is answered 401 and then 200. |
| `DispatchRuns.AcceptedFollowsTable` | gst-rtsp-server/gst/rtsp-server/rtsp-client.c:1455-3795 | An accepted request moves the media it is about as the state table says, which allowed it, and no other media of any session. |
| `DispatchRuns.RefusedChangesNothing` | gst-rtsp-server/gst/rtsp-server/rtsp-client.c:1455-3795 | A refused request leaves all sessions as they were if and only if it is not a SETUP refused for its transport after an older session took the media. |
| `DispatchRuns.LateRefusalLeavesMedia` | gst-rtsp-server/gst/rtsp-server/rtsp-client.c:2985-3002 | A run: a SETUP, and then one of another path in the same session, which is answered 461 and leaves an INIT media. |
| `DispatchRuns.RecordPlays` | gst-rtsp-server/gst/rtsp-server/rtsp-client.c:3725-3728 | A run: a SETUP, and then a RECORD, here of another client that names the session, that leaves the media PLAYING. |
| `DispatchRuns.StepKeepsInvariant` | gst-rtsp-server/gst/rtsp-server/rtsp-client.c:626-3795 | Every connect, request, expiry and close of any client keeps the paths of each session different and no media RECORDING. |
| `DispatchRuns.OnlyClosingEmpties` | gst-rtsp-server/gst/rtsp-server/rtsp-client.c:626-3795 | A step leaves a session without media if and only if it is the close of a client that takes all media of the session along. |
| `DispatchRuns.ClosingLeavesEmptySession` | gst-rtsp-server/gst/rtsp-server/rtsp-client.c:626-737 | A run: a SETUP, and then the client closes and takes the media along; the session stays in the pool without media. |
| `DispatchRuns.RunFollowsTable` | gst-rtsp-server/gst/rtsp-server/rtsp-client.c:626-3795 | Over every run of any number of clients each media is in the state that its own moves lead to: accepted requests in the table, a late refusal to INIT, an expiry or a close that takes it to nothing. |
| `DispatchRuns.StateDecides` | gst-rtsp-server/gst/rtsp-server/rtsp-client.c:1713-3795 | When nothing outside objects, the exact state of the media under the path decides: accepted iff the table allows it, 455 if not, and 460 or 404 without such a media. |
| `DispatchRuns.RunIsSafe` | gst-rtsp-server/gst/rtsp-server/rtsp-client.c:626-3795 | Over every run from the start, of any number of clients that share the sessions, a media is never RECORDING, and PLAYING if and only if an accepted PLAY or RECORD was not followed by a PAUSE, TEARDOWN, expiry or a close that takes it; only after a close can a session be without media. |

## Left out

- Text of network addresses: GInetAddress parses and prints it; addresses enter as bytes with a multicast flag.
- Threads: each method that the code runs under one lock is one step; the interleavings of these steps are what the runs quantify over.
- Unseen libraries (pipelines, SDP, MIKEY, RTSP message parsing, hashing, sockets): their outcomes are parameters of the methods, and any outcome is allowed.
- `g_string` buffers with embedded NUL characters, and the wrap of the 32-bit replacement counter.
- Wrap of the 32-bit session cookie, and filters that a callback starts inside another filter.
- AddressPools.AddressPool.Release: the caller passes an address object of its own, so that aliasing of two handles for one address is not modelled.
- AddressPoolRuns.RunIsSafe: asks for added ranges that overlap no granted one and for granted reservations that cut inside their range, neither of which the code checks; without one of them the invariant does not hold (AddressPoolRuns.StepKeepsInvariant).
- SessionFilters.Client.SessionFilter: asks for a finite set that holds every session a callback ever watches; with endless new sessions the code does not end either. Changing the session pool while sessions are watched is not modelled.
- OrderedSets.OrderedSet.Iterate: the generator is run to its end; changing the set while it is suspended is not modelled, nor is unhashable input.
- ReplayBins.ReplayBin.Play: the file is taken to answer each seek with the segment that was asked for. Files of 2^62 nanoseconds and more are not modelled, and the types of a seek are not: a start or stop that is not given is the time -1.
- ReplayBins.ReplayBin.PlayFirst: a forward seek without a start is translated (TranslateSeek, HandleSeek) but its playback is not modelled: the file then plays from where it stands.
- ReplayBins.ReplayBin.TranslateSeek: seeks so far out that a signed sum of the translation overflows 64 bits, and times below -1, are not modelled.
- The trickmode interval, seek flags and the events around a segment of the replay bin carry no state that the offsets depend on.
- BackPressure.Client.DoSendMessages: clients without a send function, or with one for single messages only, are not modelled.
- Tunnels.RunIsSafe: a connection becomes a half of a tunnel at most once, as the RTSP connection library promises.
- Nonces.RunBoundsAge: random nonces are taken to be new, and the monotonic clock to be positive.
- Nonces.NonceTable.DigestAuth: the two digest functions of the RTSP library are parameters, any functions of the same arguments.
- MediaCache.KeysDoNotCollide: about parsed URLs with a resolved port; factories that override the key printer are not modelled.
- Dispatcher.Client.HandleRequest: classes that override the default methods can only choose the answers they give; headers and bodies of responses, the session timeout, keep-alive, the watch and data channels of a SETUP and the state of the pipeline are not modelled.
- Dispatcher.Client.FindMedia: the longest matching mount point is an answer that satisfies the prefix rule of the mount points; the path of a URL is the same for mount points and for sessions.
- Dispatcher.Client.HandleOptions: after a refused pre-signal the response is also freed, although it lies on the stack of the caller; memory is not modelled.
- DispatchRuns.RunIsSafe: session ids made by the pool are taken to be new, and paths of parsed URLs, which enter sanitized, to be non-empty. Each request is one step: requests that different clients have handled in different threads at the same time are not interleaved. Which media a client takes along when it closes depends on transports that are not modelled, so any set is allowed, also of sessions it does not watch.
- Dispatcher.Client: its `sessions` are those of the pool that all clients share; the runs hand them from one request to the next.
- Session media of the dispatcher are values in lists, not objects; sessions are only made by SETUP, and a request starts without a token.
- `parse_transport`, the choice of free interleaved channels and the seek-style table of PLAY: their outcomes are answers.
- Tutorials, the Qt player, other example servers, property getters and setters, signals and reference counts.
