/** The frame-backed arena as an abstract map from claimed start region to region count.
    `FrameArena` (the slot arrays, the bump index and the kernel page table) refines this. */
module FramePool {
  import opened Prelude

  function VaddrOf(region: nat): (vaddr: nat)
    ensures vaddr == 0x8820_0000 + region * 0x20_0000
  {
    ARENA_VADDR + region * MEGAPAGE_BYTES
  }

  const ARENA_VADDR: nat := 0x8820_0000
  const MEGAPAGE_BYTES: nat := 0x20_0000
  const ARENA_FRAME_CPTR_BASE: nat := 7

  function CPtrOf(region: nat): nat {
    ARENA_FRAME_CPTR_BASE + region
  }

  /** The region an address lies in; meaningful from `ARENA_VADDR` on. */
  function RegionOf(vaddr: nat): nat {
    if vaddr < ARENA_VADDR then 0 else (vaddr - 0x8820_0000) / 0x20_0000
  }

  function OffsetOf(vaddr: nat): nat {
    if vaddr < ARENA_VADDR then 0 else (vaddr - 0x8820_0000) % 0x20_0000
  }

  lemma AddressRoundTrip(region: nat, offset: nat)
    requires offset < 0x20_0000
    ensures RegionOf(VaddrOf(region) + offset) == region
    ensures OffsetOf(VaddrOf(region) + offset) == offset
  {
  }

  /** `size.div_ceil(MEGAPAGE_BYTES).max(1)`: the fewest megapages, at least one, that hold `size` bytes. */
  function RegionsFor(size: nat): (count: nat)
    ensures 1 <= count
    ensures size <= count * 0x20_0000
    ensures count == 1 || (count - 1) * 0x20_0000 < size
  {
    var ceiling := if size % 0x20_0000 == 0 then size / 0x20_0000 else size / 0x20_0000 + 1;
    if ceiling < 1 then 1 else ceiling
  }

  /** `regions` is the pool's compile-time capacity and `granted` the regions whose frame capability
      the loader really supplied. `live` maps a start region to its region count; `memory` holds the
      bytes written so far, an absent address reading as zero. */
  datatype Pool = Pool(regions: nat, granted: set<nat>, next: nat, live: map<nat, nat>, memory: map<nat, byte>)

  function Fresh(regions: nat, granted: set<nat>): Pool {
    Pool(regions, granted, 0, map[], map[])
  }

  function ByteAt(memory: map<nat, byte>, vaddr: nat): byte {
    if vaddr in memory then memory[vaddr] else 0
  }

  function Read(p: Pool, vaddr: nat): byte {
    ByteAt(p.memory, vaddr)
  }

  predicate IsLive(p: Pool, region: nat) {
    exists s :: s in p.live && s <= region < s + p.live[s]
  }

  predicate Apart(live: map<nat, nat>, s: nat, t: nat)
    requires s in live && t in live
  {
    s + live[s] <= t || t + live[t] <= s
  }

  /** Live grants are nonempty, pairwise disjoint intervals below the bump index, backed by granted
      frames; nothing at or above the bump index was ever written. */
  ghost predicate WellFormed(p: Pool) {
    && p.next <= p.regions
    && (forall s :: s in p.live ==> 1 <= p.live[s] && s + p.live[s] <= p.next)
    && (forall s, t :: s in p.live && t in p.live && s != t ==> Apart(p.live, s, t))
    && (forall r :: IsLive(p, r) ==> r in p.granted)
    && (forall v :: v in p.memory ==> ARENA_VADDR <= v && RegionOf(v) < p.next)
  }

  datatype Op =
    | MmapNew(size: nat)
    | Munmap(ptr: nat)
    | MmapRemap(addr: nat, size: nat)
    | Write(addr: nat, value: byte)

  datatype Reply = Mapped(base: nat) | Exhausted | Panicked | Done | Fault

  /** One `FrameInvoke::Map` that the kernel carried out. */
  datatype Mapping = Mapping(cptr: nat, vaddr: nat)

  /** The new pool, the reply, and the frames the operation had the kernel map and unmap, in order. */
  datatype Outcome = Outcome(pool: Pool, reply: Reply, maps: seq<Mapping>, unmaps: seq<nat>)

  function MapsOf(start: nat, end: nat): (maps: seq<Mapping>)
    requires start <= end
    ensures |maps| == end - start
    ensures forall k :: 0 <= k < |maps| ==> maps[k] == Mapping(CPtrOf(start + k), VaddrOf(start + k))
  {
    seq(end - start, k requires 0 <= k < end - start => Mapping(CPtrOf(start + k), VaddrOf(start + k)))
  }

  function UnmapsOf(start: nat, end: nat): (unmaps: seq<nat>)
    requires start <= end
    ensures |unmaps| == end - start
    ensures forall k :: 0 <= k < |unmaps| ==> unmaps[k] == CPtrOf(start + k)
  {
    seq<nat>(end - start, k requires 0 <= k < end - start => CPtrOf(start + k))
  }

  /** How far a mapping loop over `start..end` gets before it meets a region with no frame. */
  function MappedPrefix(granted: set<nat>, start: nat, end: nat): (stop: nat)
    requires start <= end
    ensures start <= stop <= end
    ensures forall r :: start <= r < stop ==> r in granted
    ensures stop < end ==> stop !in granted
    decreases end - start
  {
    if start == end || start !in granted then start else MappedPrefix(granted, start + 1, end)
  }

  /** `ptr` is the base address of a live grant. */
  predicate IsLiveBase(p: Pool, ptr: nat) {
    ptr >= ARENA_VADDR && OffsetOf(ptr) == 0 && RegionOf(ptr) in p.live
  }

  /** `addr..addr+size` lies inside one live grant: the caller contract of `wasmtime_mmap_remap`. */
  predicate InsideLiveGrant(p: Pool, addr: nat, size: nat) {
    exists s :: s in p.live && VaddrOf(s) <= addr && addr + size <= VaddrOf(s + p.live[s])
  }

  function Step(p: Pool, op: Op): Outcome {
    match op
    case MmapNew(size) =>
      var end := p.next + RegionsFor(size);
      if end > USIZE_MAX || end > p.regions then
        Outcome(p, Exhausted, [], [])
      else
        var stop := MappedPrefix(p.granted, p.next, end);
        if stop < end then
          Outcome(p.(next := end), Panicked, MapsOf(p.next, stop), [])
        else
          var live := p.live[p.next := end - p.next];
          Outcome(p.(next := end, live := live), Mapped(VaddrOf(p.next)), MapsOf(p.next, end), [])
    case Munmap(ptr) =>
      if IsLiveBase(p, ptr) then
        var s := RegionOf(ptr);
        Outcome(p.(live := p.live - {s}), Done, [], UnmapsOf(s, s + p.live[s]))
      else
        Outcome(p, Done, [], [])
    case MmapRemap(addr, size) =>
      if InsideLiveGrant(p, addr, size) then
        Outcome(p.(memory := map v | v in p.memory && !(addr <= v < addr + size) :: p.memory[v]), Done, [], [])
      else
        Outcome(p, Fault, [], [])
    case Write(addr, value) =>
      if addr >= ARENA_VADDR && IsLive(p, RegionOf(addr)) then
        Outcome(p.(memory := p.memory[addr := value]), Done, [], [])
      else
        Outcome(p, Fault, [], [])
  }

  /** Every operation that does not panic keeps the pool well formed. */
  lemma StepKeepsWellFormed(p: Pool, op: Op)
    requires WellFormed(p) && Step(p, op).reply != Panicked
    ensures WellFormed(Step(p, op).pool)
  {
  }
}
