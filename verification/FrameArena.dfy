/** The frame-backed arena as the runtime keeps it: two parallel slot arrays, a bump index, and a
    kernel page table it drives one frame at a time. Every operation refines `FramePool.Step`. */
module FrameArena {
  import opened Prelude
  import opened FramePool

  /** A page table with nothing left of one frame. */
  function Without(table: map<nat, nat>, cptr: nat): map<nat, nat> {
    map v | v in table && table[v] != cptr :: table[v]
  }

  /** The kernel's half, as the arena relies on it: mapping succeeds exactly for a frame the loader
      granted that is mapped nowhere, at an address with nothing mapped. A frame keeps its contents
      while unmapped. */
  class Kernel {
    const present: set<nat>
    var table: map<nat, nat>  // page base address -> frame capability
    var contents: map<nat, seq<byte>>
    var mapLog: seq<Mapping>
    var unmapLog: seq<nat>

    ghost predicate Valid()
      reads this
    {
      forall c :: c in present ==> c in contents && |contents[c]| == 0x20_0000
    }

    constructor (present: set<nat>)
      ensures Valid() && this.present == present
      ensures table == map[] && mapLog == [] && unmapLog == []
      ensures forall c :: c in present ==> forall o :: 0 <= o < 0x20_0000 ==> contents[c][o] == 0
    {
      this.present := present;
      table, mapLog, unmapLog := map[], [], [];
      contents := map c | c in present :: seq<byte>(0x20_0000, o => 0);
    }

    predicate CanMap(cptr: nat, vaddr: nat)
      reads this
    {
      cptr in present && cptr !in table.Values && vaddr !in table
    }

    method Map(cptr: nat, vaddr: nat) returns (ok: bool)
      modifies this
      ensures ok == old(CanMap(cptr, vaddr))
      ensures table == if ok then old(table)[vaddr := cptr] else old(table)
      ensures mapLog == if ok then old(mapLog) + [Mapping(cptr, vaddr)] else old(mapLog)
      ensures contents == old(contents) && unmapLog == old(unmapLog)
    {
      ok := CanMap(cptr, vaddr);
      if ok {
        table := table[vaddr := cptr];
        mapLog := mapLog + [Mapping(cptr, vaddr)];
      }
    }

    method Unmap(cptr: nat) returns (ok: bool)
      modifies this
      ensures ok == (cptr in old(table).Values)
      ensures table == Without(old(table), cptr)
      ensures unmapLog == if ok then old(unmapLog) + [cptr] else old(unmapLog)
      ensures contents == old(contents) && mapLog == old(mapLog)
    {
      ok := cptr in table.Values;
      if ok {
        unmapLog := unmapLog + [cptr];
      }
      table := Without(table, cptr);
    }

    /** The frame capability behind a virtual address, if one is mapped there. */
    function Translate(vaddr: nat): Option<nat>
      reads this
    {
      var page := VaddrOf(RegionOf(vaddr));
      if vaddr >= ARENA_VADDR && page in table then Some(table[page]) else None
    }

    function Load(vaddr: nat): Option<byte>
      requires Valid() && table.Values <= present
      reads this
    {
      var frame := Translate(vaddr);
      if frame.None? then None else
      assert frame.value in table.Values;
      Some(contents[frame.value][OffsetOf(vaddr)])
    }

    /** One byte store by the hosted engine; `false` is a page fault. */
    method Store(vaddr: nat, value: byte) returns (ok: bool)
      requires Valid() && table.Values <= present
      modifies this`contents
      ensures Valid()
      ensures ok == Translate(vaddr).Some?
      ensures !ok ==> contents == old(contents)
      ensures ok ==> var c := Translate(vaddr).value;
                     contents == old(contents)[c := old(contents)[c][OffsetOf(vaddr) := value]]
    {
      var frame := Translate(vaddr);
      ok := frame.Some?;
      if ok {
        assert frame.value in table.Values;
        contents := contents[frame.value := contents[frame.value][OffsetOf(vaddr) := value]];
      }
    }
  }

  datatype AllocResult = Granted(base: nat) | NoRoom | Panic

  class Arena {
    const kernel: Kernel
    const vaddrs: array<nat>  // ALLOC_VADDR
    const counts: array<nat>  // ALLOC_COUNT; zero marks a free slot
    var nextRegion: nat       // NEXT_REGION
    ghost var pool: Pool      // the abstract pool this state stands for

    ghost predicate SlotsMatch()
      reads this, vaddrs, counts
    {
      SlotsAre(vaddrs[..], counts[..], pool)
    }

    ghost predicate Valid()
      reads this, kernel, vaddrs, counts
    {
      && vaddrs != counts
      && WellFormed(pool)
      && nextRegion == pool.next
      && vaddrs.Length == counts.Length == pool.regions
      && VaddrOf(pool.regions) <= USIZE_MAX
      && SlotsMatch()
      && KernelMatches(kernel, pool)
    }

    constructor (regions: nat, kernel: Kernel)
      requires kernel.Valid() && kernel.table == map[]
      requires VaddrOf(regions) <= USIZE_MAX
      requires forall c :: c in kernel.present ==> forall o :: 0 <= o < 0x20_0000 ==> kernel.contents[c][o] == 0
      ensures Valid() && this.kernel == kernel && fresh(vaddrs) && fresh(counts)
      ensures pool == Fresh(regions, set r | 0 <= r < regions && CPtrOf(r) in kernel.present)
    {
      this.kernel := kernel;
      vaddrs := new nat[regions](i => 0);
      counts := new nat[regions](i => 0);
      nextRegion := 0;
      pool := Fresh(regions, set r | 0 <= r < regions && CPtrOf(r) in kernel.present);
    }

    /** The first free slot, or the array length if every slot is taken. */
    method FindFree() returns (slot: nat)
      ensures slot <= counts.Length
      ensures slot < counts.Length ==> counts[slot] == 0
      ensures slot == counts.Length ==> forall i :: 0 <= i < counts.Length ==> counts[i] != 0
    {
      slot := 0;
      while slot < counts.Length && counts[slot] != 0
        invariant slot <= counts.Length
        invariant forall i :: 0 <= i < slot ==> counts[i] != 0
      {
        slot := slot + 1;
      }
    }

    /** The slot holding `ptr`, or the array length if no live slot does. */
    method FindSlot(ptr: nat) returns (slot: nat)
      requires vaddrs.Length == counts.Length
      ensures slot <= counts.Length
      ensures slot < counts.Length ==> counts[slot] != 0 && vaddrs[slot] == ptr
      ensures slot == counts.Length ==> forall i :: 0 <= i < counts.Length ==> !(counts[i] != 0 && vaddrs[i] == ptr)
    {
      slot := 0;
      while slot < counts.Length && !(counts[slot] != 0 && vaddrs[slot] == ptr)
        invariant slot <= counts.Length
        invariant forall i :: 0 <= i < slot ==> !(counts[i] != 0 && vaddrs[i] == ptr)
      {
        slot := slot + 1;
      }
    }

    /** The late slot search, run once the frames are mapped: it always finds a slot. */
    method Record(count: nat) returns (ok: bool)
      requires vaddrs != counts && vaddrs.Length == counts.Length == pool.regions
      requires kernel.Valid() && WellFormed(pool) && VaddrOf(pool.regions) <= USIZE_MAX
      requires 1 <= count && nextRegion == pool.next + count <= pool.regions
      requires forall r :: pool.next <= r < pool.next + count ==> r in pool.granted
      requires SlotsMatch() && MemoryIs(kernel.contents, pool)
      requires TableWith(kernel.table, pool, pool.next, pool.next + count)
      requires forall r: nat :: r < pool.regions ==> (r in pool.granted <==> CPtrOf(r) in kernel.present)
      modifies this`pool, vaddrs, counts
      ensures ok && Valid()
      ensures pool == old(pool).(next := old(pool).next + count, live := old(pool).live[old(pool).next := count])
    {
      hide SlotsAre, MemoryIs, TableWith, WellFormed;
      FreeSlotExists(vaddrs[..], counts[..], pool);
      var slot := FindFree();
      ok := slot < counts.Length;
      if ok {
        GrantKeepsMatch(vaddrs[..], counts[..], kernel.table, kernel.contents, pool, slot, count);
        GrantKeepsWellFormed(pool, count);
        vaddrs[slot] := VaddrOf(nextRegion - count);
        counts[slot] := count;
        assert vaddrs[..] == old(vaddrs[..])[slot := VaddrOf(nextRegion - count)];
        assert counts[..] == old(counts[..])[slot := count];
        pool := pool.(next := pool.next + count, live := pool.live[pool.next := count]);
      }
    }

    /** Claims, maps and records enough megapages for `size` bytes. The outcome, the new state and the
        kernel's log are exactly the abstract pool's; in particular the slot search never fails, so
        no frame is left mapped by a call that reports no room. */
    method Alloc(size: nat) returns (r: AllocResult)
      requires Valid()
      modifies this, kernel, vaddrs, counts
      ensures var o := Step(old(pool), MmapNew(size));
              && pool == o.pool
              && r == (if o.reply.Mapped? then Granted(o.reply.base) else if o.reply.Exhausted? then NoRoom else Panic)
              && kernel.mapLog == old(kernel.mapLog) + o.maps
              && kernel.unmapLog == old(kernel.unmapLog)
      ensures r != Panic ==> Valid()
    {
      hide SlotsAre, MemoryIs, TableWith, MapsOf, MappedPrefix, RegionsFor;
      var count := RegionsFor(size);
      var start := nextRegion;
      var end := start + count;
      if end > USIZE_MAX || end > counts.Length {
        return NoRoom;
      }
      nextRegion := end;
      var mapped := MapRegions(kernel, pool, start, end);
      if !mapped {
        pool := Step(pool, MmapNew(size)).pool;
        return Panic;
      }
      var recorded := Record(count);
      r := if recorded then Granted(VaddrOf(start)) else NoRoom;
    }

    /** Unmaps the grant based at `ptr`, or does nothing when no live grant is based there. */
    method Dealloc(ptr: nat)
      requires Valid()
      modifies this`pool, kernel, vaddrs, counts
      ensures Valid()
      ensures var o := Step(old(pool), Munmap(ptr));
              && pool == o.pool
              && kernel.unmapLog == old(kernel.unmapLog) + o.unmaps
              && kernel.mapLog == old(kernel.mapLog)
    {
      hide SlotsAre, MemoryIs, TableWith, TableWithout, WellFormed, UnmapsOf, IsLive;
      var slot := FindSlot(ptr);
      SlotHolds(vaddrs[..], counts[..], pool, ptr, slot);
      if slot == counts.Length {
        return;
      }
      var count := counts[slot];
      var start := RegionOf(ptr);
      UnmapRegions(kernel, pool, start, start + count);
      ReleaseKeepsMatch(vaddrs[..], counts[..], kernel.table, kernel.contents, pool, slot);
      StepKeepsWellFormed(pool, Munmap(ptr));
      vaddrs[slot] := 0;
      counts[slot] := 0;
      assert vaddrs[..] == old(vaddrs[..])[slot := 0];
      assert counts[..] == old(counts[..])[slot := 0];
      pool := Step(pool, Munmap(ptr)).pool;
    }

    /** A byte store by the hosted engine. */
    method Store(addr: nat, value: byte) returns (ok: bool)
      requires Valid()
      modifies this`pool, kernel`contents
      ensures Valid()
      ensures pool == Step(old(pool), Write(addr, value)).pool
      ensures ok == (Step(old(pool), Write(addr, value)).reply == Done)
    {
      hide SlotsAre, TableWith, WellFormed, MemoryIs, IsLive;
      StepKeepsWellFormed(pool, Write(addr, value));
      SameSlots(vaddrs[..], counts[..], pool, Step(pool, Write(addr, value)).pool);
      ok := StoreByte(kernel, pool, addr, value);
      pool := Step(pool, Write(addr, value)).pool;
    }

    /** Zeroes `addr..addr+size` in place. Inside a live grant no store faults; afterwards the range
        reads as a fresh mapping does and every other byte is untouched. */
    method Remap(addr: nat, size: nat)
      requires Valid() && InsideLiveGrant(pool, addr, size)
      modifies this`pool, kernel`contents
      ensures Valid()
      ensures pool == Step(old(pool), MmapRemap(addr, size)).pool
      ensures ZeroedTo(old(pool), pool, addr, addr + size)
    {
      hide SlotsAre, KernelMatches, WellFormed, Step, ByteAt, InsideLiveGrant, ZeroedTo;
      RemapZeroes(pool, addr, size);
      ZeroRange(kernel, pool, addr, size);
      SameSlots(vaddrs[..], counts[..], pool, Step(pool, MmapRemap(addr, size)).pool);
      pool := Step(pool, MmapRemap(addr, size)).pool;
    }
  }

  /** The kernel holds the frames, the page table and the memory that `p` says it should. */
  ghost predicate KernelMatches(kernel: Kernel, p: Pool)
    reads kernel
  {
    && kernel.Valid()
    && (forall r: nat :: r < p.regions ==> (r in p.granted <==> CPtrOf(r) in kernel.present))
    && TableWith(kernel.table, p, 0, 0)
    && MemoryIs(kernel.contents, p)
  }

  /** The mapping loop: maps `start..end` in order and stops at the first region with no frame. */
  method MapRegions(kernel: Kernel, ghost p: Pool, start: nat, end: nat) returns (ok: bool)
    requires KernelMatches(kernel, p) && WellFormed(p) && p.next == start <= end <= p.regions
    modifies kernel
    ensures var stop := MappedPrefix(p.granted, start, end);
            && ok == (stop == end)
            && TableWith(kernel.table, p, start, stop)
            && kernel.mapLog == old(kernel.mapLog) + MapsOf(start, stop)
    ensures kernel.contents == old(kernel.contents) && kernel.unmapLog == old(kernel.unmapLog)
  {
    hide KernelMatches, TableWith, WellFormed, MappedPrefix, MapsOf, MemoryIs;
    BeforeMapping(kernel, p, start);
    ghost var before := kernel.mapLog;
    assert before == before + MapsOf(start, start);
    var region := start;
    while region < end
      invariant start <= region <= end
      invariant forall r :: start <= r < region ==> r in p.granted
      invariant TableWith(kernel.table, p, start, region)
      invariant kernel.mapLog == before + MapsOf(start, region)
      invariant kernel.contents == old(kernel.contents) && kernel.unmapLog == old(kernel.unmapLog)
    {
      MapStep(kernel.table, p, start, region);
      MapsOfStep(start, region);
      ok := kernel.Map(CPtrOf(region), VaddrOf(region));
      if !ok {
        PrefixStops(p.granted, start, region, end);
        return false;
      }
      region := region + 1;
    }
    PrefixStops(p.granted, start, end, end);
    ok := true;
  }

  lemma BeforeMapping(kernel: Kernel, p: Pool, start: nat)
    requires KernelMatches(kernel, p)
    ensures TableWith(kernel.table, p, start, start)
    ensures forall r: nat :: r < p.regions ==> (r in p.granted <==> CPtrOf(r) in kernel.present)
  {
    EmptyWindow(kernel.table, p, start);
  }

  /** The unmapping loop; the kernel's per-frame result is ignored, as in the source. */
  method UnmapRegions(kernel: Kernel, ghost p: Pool, start: nat, end: nat)
    requires KernelMatches(kernel, p) && WellFormed(p)
    requires start <= end && forall r :: start <= r < end ==> IsLive(p, r)
    modifies kernel
    ensures TableWithout(kernel.table, p, start, end)
    ensures kernel.unmapLog == old(kernel.unmapLog) + UnmapsOf(start, end)
    ensures kernel.contents == old(kernel.contents) && kernel.mapLog == old(kernel.mapLog)
  {
    hide KernelMatches, Without, TableWith, TableWithout, WellFormed, IsLive, UnmapsOf, MemoryIs;
    BeforeUnmapping(kernel, p, start);
    ghost var before := kernel.unmapLog;
    assert before == before + UnmapsOf(start, start);
    var region := start;
    while region < end
      invariant start <= region <= end
      invariant TableWithout(kernel.table, p, start, region)
      invariant kernel.unmapLog == before + UnmapsOf(start, region)
      invariant kernel.contents == old(kernel.contents) && kernel.mapLog == old(kernel.mapLog)
    {
      UnmapStep(kernel.table, p, start, region);
      UnmapsOfStep(start, region);
      var _ := kernel.Unmap(CPtrOf(region));
      region := region + 1;
    }
  }

  lemma BeforeUnmapping(kernel: Kernel, p: Pool, start: nat)
    requires KernelMatches(kernel, p)
    ensures TableWithout(kernel.table, p, start, start) && UnmapsOf(start, start) == []
  {
    EmptyWindow(kernel.table, p, start);
  }

  method StoreByte(kernel: Kernel, ghost p: Pool, addr: nat, value: byte) returns (ok: bool)
    requires KernelMatches(kernel, p) && WellFormed(p)
    modifies kernel`contents
    ensures KernelMatches(kernel, Step(p, Write(addr, value)).pool)
    ensures ok == (Step(p, Write(addr, value)).reply == Done)
  {
    TranslateLive(kernel, p, addr);
    hide TableWith, WellFormed, IsLive, MemoryIs;
    if addr >= ARENA_VADDR && IsLive(p, RegionOf(addr)) {
      StoreKeepsMemory(kernel.contents, p, addr, value);
    }
    ok := kernel.Store(addr, value);
    SameTable(kernel.table, p, Step(p, Write(addr, value)).pool);
  }

  /** `q` is `p` with the bytes of `addr..end` zeroed. */
  ghost predicate ZeroedTo(p: Pool, q: Pool, addr: nat, end: nat) {
    && q == p.(memory := q.memory)
    && WellFormed(q)
    && forall v: nat :: ByteAt(q.memory, v) == if addr <= v < end then 0 else ByteAt(p.memory, v)
  }

  lemma ZeroStep(p: Pool, q: Pool, addr: nat, end: nat, size: nat)
    requires ZeroedTo(p, q, addr, end) && addr <= end < addr + size && InsideLiveGrant(p, addr, size)
    ensures WellFormed(q) && ZeroedTo(p, Step(q, Write(end, 0)).pool, addr, end + 1)
  {
    hide IsLive, WellFormed, InsideLiveGrant;
    AddressIsLive(p, addr, size, end);
    SameLive(p, q);
    StepKeepsWellFormed(q, Write(end, 0));
    var z := Step(q, Write(end, 0)).pool;
    assert z == q.(memory := q.memory[end := 0]);
    forall v: nat ensures ByteAt(z.memory, v) == if addr <= v < end + 1 then 0 else ByteAt(p.memory, v) {
      assert v != end ==> ByteAt(z.memory, v) == ByteAt(q.memory, v);
    }
  }

  method ZeroRange(kernel: Kernel, ghost p: Pool, addr: nat, size: nat)
    requires KernelMatches(kernel, p) && WellFormed(p) && InsideLiveGrant(p, addr, size)
    modifies kernel`contents
    ensures KernelMatches(kernel, Step(p, MmapRemap(addr, size)).pool)
  {
    hide KernelMatches, InsideLiveGrant, Step, ZeroedTo, WellFormed, ByteAt;
    RemapZeroes(p, addr, size);
    ghost var q := p;
    var i := 0;
    while i < size
      invariant i <= size && KernelMatches(kernel, q) && ZeroedTo(p, q, addr, addr + i)
    {
      ZeroStep(p, q, addr, addr + i, size);
      var _ := StoreByte(kernel, q, addr + i, 0);
      q := Step(q, Write(addr + i, 0)).pool;
      i := i + 1;
    }
    SameBytes(kernel, q, Step(p, MmapRemap(addr, size)).pool, p, addr, addr + size);
  }

  lemma RemapZeroes(p: Pool, addr: nat, size: nat)
    requires WellFormed(p) && InsideLiveGrant(p, addr, size)
    ensures var q := Step(p, MmapRemap(addr, size)).pool;
            ZeroedTo(p, q, addr, addr + size) && WellFormed(q) && q == p.(memory := q.memory)
    ensures ZeroedTo(p, p, addr, addr)
  {
    StepKeepsWellFormed(p, MmapRemap(addr, size));
  }

  lemma SameLive(p: Pool, q: Pool)
    requires p.live == q.live
    ensures forall r: nat :: IsLive(p, r) <==> IsLive(q, r)
  {
  }

  lemma AddressIsLive(p: Pool, addr: nat, size: nat, v: nat)
    requires InsideLiveGrant(p, addr, size) && addr <= v < addr + size
    ensures v >= ARENA_VADDR && IsLive(p, RegionOf(v))
  {
    var s: nat :| s in p.live && VaddrOf(s) <= addr && addr + size <= VaddrOf(s + p.live[s]);
    assert s <= RegionOf(v) < s + p.live[s];
  }

  /** Only the bytes a memory reads as matter, not how the map spells them. */
  lemma SameBytes(kernel: Kernel, q: Pool, q': Pool, p: Pool, addr: nat, end: nat)
    requires KernelMatches(kernel, q) && ZeroedTo(p, q, addr, end) && ZeroedTo(p, q', addr, end)
    ensures KernelMatches(kernel, q')
  {
    SameLive(q, q');
    SameTable(kernel.table, q, q');
    forall r: nat | r < q.regions && r in q.granted && (IsLive(q, r) || q.next <= r)
      ensures FrameIs(kernel.contents, q'.memory, r)
    {
      assert FrameIs(kernel.contents, q.memory, r);
    }
  }

  lemma SameSlots(vaddrs: seq<nat>, counts: seq<nat>, p: Pool, q: Pool)
    requires SlotsAre(vaddrs, counts, p) && p.live == q.live && p.regions == q.regions
    ensures SlotsAre(vaddrs, counts, q)
  {
    forall i | 0 <= i < |counts| && counts[i] != 0 ensures SlotIsLive(vaddrs[i], counts[i], q) {
      assert SlotIsLive(vaddrs[i], counts[i], p);
    }
  }

  lemma SameTable(table: map<nat, nat>, p: Pool, q: Pool)
    requires TableWith(table, p, 0, 0) && p.live == q.live
    ensures TableWith(table, q, 0, 0)
  {
    assert forall r: nat :: IsLive(p, r) <==> IsLive(q, r);
  }

  /** An arena address translates exactly when its region is live, and then to the region's own frame. */
  lemma TranslateLive(kernel: Kernel, p: Pool, addr: nat)
    requires KernelMatches(kernel, p) && WellFormed(p)
    ensures kernel.table.Values <= kernel.present
    ensures kernel.Translate(addr) ==
            if addr >= ARENA_VADDR && IsLive(p, RegionOf(addr)) then Some(CPtrOf(RegionOf(addr))) else None
  {
  }

  lemma LiveIsGranted(p: Pool, r: nat)
    requires WellFormed(p) && IsLive(p, r)
    ensures r in p.granted && r < p.regions
  {
  }

  /** A load through the kernel's page table reads the abstract pool's byte on live memory, and faults
      everywhere else. */
  lemma LoadIsRead(kernel: Kernel, p: Pool, addr: nat)
    requires KernelMatches(kernel, p) && WellFormed(p)
    ensures kernel.table.Values <= kernel.present
    ensures kernel.Load(addr) ==
            if addr >= ARENA_VADDR && IsLive(p, RegionOf(addr)) then Some(Read(p, addr)) else None
  {
    hide TableWith, IsLive, WellFormed;
    TranslateLive(kernel, p, addr);
    if addr >= ARENA_VADDR && IsLive(p, RegionOf(addr)) {
      var r := RegionOf(addr);
      LiveIsGranted(p, r);
      assert FrameIs(kernel.contents, p.memory, r);
      assert VaddrOf(r) + OffsetOf(addr) == addr;
    }
  }

  /** The slot arrays list exactly the live grants, one slot each. */
  ghost predicate SlotsAre(vaddrs: seq<nat>, counts: seq<nat>, p: Pool) {
    && |vaddrs| == |counts| == p.regions
    && (forall i :: 0 <= i < |counts| && counts[i] != 0 ==> SlotIsLive(vaddrs[i], counts[i], p))
    && (forall i, j :: 0 <= i < j < |counts| && counts[i] != 0 && counts[j] != 0 ==> vaddrs[i] != vaddrs[j])
    && (forall s :: s in p.live ==> HasSlot(vaddrs, counts, s))
  }

  ghost predicate HasSlot(vaddrs: seq<nat>, counts: seq<nat>, s: nat) {
    exists i :: 0 <= i < |counts| && i < |vaddrs| && counts[i] != 0 && vaddrs[i] == VaddrOf(s)
  }

  ghost predicate SlotIsLive(vaddr: nat, count: nat, p: Pool) {
    && vaddr >= ARENA_VADDR
    && RegionOf(vaddr) in p.live
    && vaddr == VaddrOf(RegionOf(vaddr))
    && p.live[RegionOf(vaddr)] == count
  }

  /** Live and never-claimed frames hold the pool's memory; never-claimed ones are blank. */
  ghost predicate MemoryIs(contents: map<nat, seq<byte>>, p: Pool) {
    forall r: nat :: r < p.regions && r in p.granted && (IsLive(p, r) || p.next <= r) ==> FrameIs(contents, p.memory, r)
  }

  /** The frame of region `r` holds the bytes `memory` has at that region's addresses. */
  ghost predicate FrameIs(contents: map<nat, seq<byte>>, memory: map<nat, byte>, r: nat) {
    && CPtrOf(r) in contents
    && |contents[CPtrOf(r)]| == 0x20_0000
    && forall o: nat :: o < 0x20_0000 ==> contents[CPtrOf(r)][o] == ByteAt(memory, VaddrOf(r) + o)
  }

  /** Live grants never outnumber claimed regions, so while a region is unclaimed a slot is free. */
  lemma FreeSlotExists(vaddrs: seq<nat>, counts: seq<nat>, p: Pool)
    requires SlotsAre(vaddrs, counts, p) && WellFormed(p) && p.next < p.regions
    ensures exists i :: 0 <= i < |counts| && counts[i] == 0
  {
    if forall i :: 0 <= i < |counts| ==> counts[i] != 0 {
      var starts := seq<nat>(|vaddrs|, i requires 0 <= i < |vaddrs| => RegionOf(vaddrs[i]));
      forall i | 0 <= i < |starts| ensures starts[i] < p.next {
        assert SlotIsLive(vaddrs[i], counts[i], p);
      }
      forall i, j | 0 <= i < j < |starts| ensures starts[i] != starts[j] {
        assert SlotIsLive(vaddrs[i], counts[i], p) && SlotIsLive(vaddrs[j], counts[j], p);
      }
      Pigeonhole(starts, p.next);
    }
  }

  lemma SlotsAfterGrant(vaddrs: seq<nat>, counts: seq<nat>, p: Pool, slot: nat, count: nat)
    requires SlotsAre(vaddrs, counts, p) && WellFormed(p) && 1 <= count
    requires slot < |counts| && counts[slot] == 0
    ensures SlotsAre(vaddrs[slot := VaddrOf(p.next)], counts[slot := count],
                     p.(next := p.next + count, live := p.live[p.next := count]))
  {
    var q := p.(next := p.next + count, live := p.live[p.next := count]);
    var v, c := vaddrs[slot := VaddrOf(p.next)], counts[slot := count];
    AddressRoundTrip(p.next, 0);
    forall i | 0 <= i < |c| && c[i] != 0 ensures SlotIsLive(v[i], c[i], q) {
      assert i != slot ==> SlotIsLive(vaddrs[i], counts[i], p);
    }
    forall s | s in q.live ensures HasSlot(v, c, s) {
      if s == p.next {
        assert c[slot] != 0;
      } else {
        assert HasSlot(vaddrs, counts, s);
        var i :| 0 <= i < |counts| && counts[i] != 0 && vaddrs[i] == VaddrOf(s);
        assert c[i] != 0;
      }
    }
  }

  /** Granting `count` regions at the bump index, once mapped, keeps the arena in step with the pool. */
  lemma GrantKeepsMatch(vaddrs: seq<nat>, counts: seq<nat>, table: map<nat, nat>, contents: map<nat, seq<byte>>,
                        p: Pool, slot: nat, count: nat)
    requires SlotsAre(vaddrs, counts, p) && MemoryIs(contents, p) && WellFormed(p)
    requires 1 <= count && p.next + count <= p.regions && TableWith(table, p, p.next, p.next + count)
    requires slot < |counts| && counts[slot] == 0
    ensures var q := p.(next := p.next + count, live := p.live[p.next := count]);
            && |vaddrs| == |counts|
            && SlotsAre(vaddrs[slot := VaddrOf(p.next)], counts[slot := count], q)
            && TableWith(table, q, 0, 0)
            && MemoryIs(contents, q)
  {
    SlotsAfterGrant(vaddrs, counts, p, slot, count);
    hide SlotsAre;
    LiveAfterGrant(p, count);
  }

  lemma GrantKeepsWellFormed(p: Pool, count: nat)
    requires WellFormed(p) && 1 <= count && p.next + count <= p.regions
    requires forall r :: p.next <= r < p.next + count ==> r in p.granted
    ensures WellFormed(p.(next := p.next + count, live := p.live[p.next := count]))
  {
    LiveAfterGrant(p, count);
    hide IsLive;
  }

  lemma LiveAfterGrant(p: Pool, count: nat)
    requires WellFormed(p) && 1 <= count
    ensures var q := p.(next := p.next + count, live := p.live[p.next := count]);
            forall r: nat :: IsLive(q, r) <==> IsLive(p, r) || p.next <= r < p.next + count
  {
    var q := p.(next := p.next + count, live := p.live[p.next := count]);
    forall r: nat ensures IsLive(q, r) <==> IsLive(p, r) || p.next <= r < p.next + count {
      if s :| s in p.live && s <= r < s + p.live[s] {
        assert s in q.live && q.live[s] == p.live[s];
      }
      assert p.next in q.live;
    }
  }

  /** A slot search finds `ptr` exactly when a live grant is based there. */
  lemma SlotHolds(vaddrs: seq<nat>, counts: seq<nat>, p: Pool, ptr: nat, slot: nat)
    requires SlotsAre(vaddrs, counts, p) && slot <= |counts| && WellFormed(p)
    requires slot < |counts| ==> counts[slot] != 0 && vaddrs[slot] == ptr
    requires slot == |counts| ==> forall i :: 0 <= i < |counts| ==> !(counts[i] != 0 && vaddrs[i] == ptr)
    ensures |vaddrs| == |counts|
    ensures slot < |counts| <==> IsLiveBase(p, ptr)
    ensures slot < |counts| ==> p.live[RegionOf(ptr)] == counts[slot]
    ensures slot < |counts| ==> forall r :: RegionOf(ptr) <= r < RegionOf(ptr) + counts[slot] ==> IsLive(p, r)
  {
    if IsLiveBase(p, ptr) {
      assert HasSlot(vaddrs, counts, RegionOf(ptr));
    }
    if slot < |counts| {
      assert SlotIsLive(ptr, counts[slot], p);
      AddressRoundTrip(RegionOf(ptr), 0);
    }
  }

  lemma StoreKeepsMemory(contents: map<nat, seq<byte>>, p: Pool, addr: nat, value: byte)
    requires MemoryIs(contents, p) && WellFormed(p) && addr >= ARENA_VADDR && IsLive(p, RegionOf(addr))
    ensures var c := CPtrOf(RegionOf(addr));
            && c in contents && OffsetOf(addr) < |contents[c]|
            && MemoryIs(contents[c := contents[c][OffsetOf(addr) := value]], p.(memory := p.memory[addr := value]))
  {
    var c := CPtrOf(RegionOf(addr));
    var q := p.(memory := p.memory[addr := value]);
    assert FrameIs(contents, p.memory, RegionOf(addr));
    var after := contents[c := contents[c][OffsetOf(addr) := value]];
    forall r: nat | r < q.regions && r in q.granted && (IsLive(q, r) || q.next <= r)
      ensures FrameIs(after, q.memory, r)
    {
      assert IsLive(p, r) <==> IsLive(q, r);
      assert FrameIs(contents, p.memory, r);
      forall o: nat | o < 0x20_0000 ensures after[CPtrOf(r)][o] == ByteAt(q.memory, VaddrOf(r) + o) {
        AddressRoundTrip(r, o);
      }
    }
  }

  lemma LiveAfterRelease(p: Pool, s: nat)
    requires WellFormed(p) && s in p.live
    ensures var q := p.(live := p.live - {s});
            forall r: nat :: IsLive(q, r) <==> IsLive(p, r) && !(s <= r < s + p.live[s])
  {
    var q := p.(live := p.live - {s});
    forall r: nat ensures IsLive(q, r) <==> IsLive(p, r) && !(s <= r < s + p.live[s]) {
      if t :| t in p.live && t <= r < t + p.live[t] {
        if t != s {
          assert t in q.live && q.live[t] == p.live[t];
          assert Apart(p.live, s, t);
        }
      }
    }
  }

  lemma SlotsAfterRelease(vaddrs: seq<nat>, counts: seq<nat>, p: Pool, slot: nat)
    requires SlotsAre(vaddrs, counts, p) && slot < |counts| && counts[slot] != 0
    ensures SlotsAre(vaddrs[slot := 0], counts[slot := 0], p.(live := p.live - {RegionOf(vaddrs[slot])}))
  {
    hide VaddrOf, RegionOf;
    var s := RegionOf(vaddrs[slot]);
    var q := p.(live := p.live - {s});
    var v, c := vaddrs[slot := 0], counts[slot := 0];
    assert SlotIsLive(vaddrs[slot], counts[slot], p);
    forall i | 0 <= i < |c| && c[i] != 0 ensures SlotIsLive(v[i], c[i], q) {
      assert SlotIsLive(vaddrs[i], counts[i], p) && vaddrs[i] != vaddrs[slot];
    }
    forall t | t in q.live ensures HasSlot(v, c, t) {
      assert HasSlot(vaddrs, counts, t);
      var i :| 0 <= i < |counts| && counts[i] != 0 && vaddrs[i] == VaddrOf(t);
      AddressRoundTrip(t, 0);
      assert i != slot && c[i] != 0;
    }
  }

  /** Releasing a grant, once its frames are unmapped, keeps the arena in step with the pool. */
  lemma ReleaseKeepsMatch(vaddrs: seq<nat>, counts: seq<nat>, table: map<nat, nat>, contents: map<nat, seq<byte>>,
                          p: Pool, slot: nat)
    requires SlotsAre(vaddrs, counts, p) && MemoryIs(contents, p) && WellFormed(p)
    requires slot < |counts| == |vaddrs| && counts[slot] != 0 && RegionOf(vaddrs[slot]) in p.live
    requires var s := RegionOf(vaddrs[slot]); TableWithout(table, p, s, s + p.live[s])
    ensures var q := p.(live := p.live - {RegionOf(vaddrs[slot])});
            && SlotsAre(vaddrs[slot := 0], counts[slot := 0], q)
            && TableWith(table, q, 0, 0)
            && MemoryIs(contents, q)
  {
    hide SlotsAre;
    var s := RegionOf(vaddrs[slot]);
    SlotsAfterRelease(vaddrs, counts, p, slot);
    LiveAfterRelease(p, s);
    hide IsLive, WellFormed;
    assert TableWith(table, p.(live := p.live - {s}), 0, 0) by {
      hide MemoryIs;
    }
    assert MemoryIs(contents, p.(live := p.live - {s})) by {
      hide TableWith, TableWithout;
    }
  }

  /** The table maps the live regions, and those in `lo..hi` besides. */
  ghost predicate TableWith(table: map<nat, nat>, p: Pool, lo: nat, hi: nat) {
    && (forall r: nat :: IsLive(p, r) || lo <= r < hi ==> VaddrOf(r) in table && table[VaddrOf(r)] == CPtrOf(r))
    && (forall v :: v in table ==>
          v >= ARENA_VADDR && v == VaddrOf(RegionOf(v)) && (IsLive(p, RegionOf(v)) || lo <= RegionOf(v) < hi))
  }

  /** The table maps the live regions outside `lo..hi`. */
  ghost predicate TableWithout(table: map<nat, nat>, p: Pool, lo: nat, hi: nat) {
    && (forall r: nat :: IsLive(p, r) && !(lo <= r < hi) ==> VaddrOf(r) in table && table[VaddrOf(r)] == CPtrOf(r))
    && (forall v :: v in table ==>
          v >= ARENA_VADDR && v == VaddrOf(RegionOf(v)) && IsLive(p, RegionOf(v)) && !(lo <= RegionOf(v) < hi))
  }

  lemma MapsOfStep(start: nat, region: nat)
    requires start <= region
    ensures MapsOf(start, region + 1) == MapsOf(start, region) + [Mapping(CPtrOf(region), VaddrOf(region))]
  {
  }

  lemma {:induction false} PrefixStops(granted: set<nat>, start: nat, stop: nat, end: nat)
    requires start <= stop <= end && (stop < end ==> stop !in granted)
    requires forall r :: start <= r < stop ==> r in granted
    ensures MappedPrefix(granted, start, end) == stop
    decreases stop - start
  {
    if start < stop {
      PrefixStops(granted, start + 1, stop, end);
    }
  }

  lemma UnmapsOfStep(start: nat, region: nat)
    requires start <= region
    ensures UnmapsOf(start, region + 1) == UnmapsOf(start, region) + [CPtrOf(region)]
  {
  }

  lemma EmptyWindow(table: map<nat, nat>, p: Pool, at: nat)
    requires TableWith(table, p, 0, 0)
    ensures TableWith(table, p, at, at) && TableWithout(table, p, at, at)
  {
  }

  lemma MapStep(table: map<nat, nat>, p: Pool, start: nat, region: nat)
    requires WellFormed(p) && p.next == start <= region && TableWith(table, p, start, region)
    ensures VaddrOf(region) !in table && CPtrOf(region) !in table.Values
    ensures TableWith(table[VaddrOf(region) := CPtrOf(region)], p, start, region + 1)
  {
    AddressRoundTrip(region, 0);
  }

  lemma UnmapStep(table: map<nat, nat>, p: Pool, start: nat, region: nat)
    requires start <= region && IsLive(p, region) && TableWithout(table, p, start, region)
    ensures CPtrOf(region) in table.Values
    ensures TableWithout(Without(table, CPtrOf(region)), p, start, region + 1)
  {
    assert table[VaddrOf(region)] == CPtrOf(region);
  }

  /** Distinct numbers below `bound` are at most `bound` many. */
  lemma {:induction false} Pigeonhole(s: seq<nat>, bound: nat)
    requires forall i :: 0 <= i < |s| ==> s[i] < bound
    requires forall i, j :: 0 <= i < j < |s| ==> s[i] != s[j]
    ensures |s| <= bound
    decreases bound
  {
    if s != [] {
      assert s[0] < bound;
      if k :| 0 <= k < |s| && s[k] == bound - 1 {
        Pigeonhole(s[..k] + s[k + 1..], bound - 1);
      } else {
        Pigeonhole(s, bound - 1);
      }
    }
  }
}
