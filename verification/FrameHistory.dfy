/** The arena's answers, kernel calls and memory, each told from the history of platform calls alone: which
    capability goes to which address, what a mapping covers, what unmapping it gives back, and which byte an
    address holds. */
module FrameHistory {
  import opened Prelude
  import opened FramePool
  import opened FramePoolRuns

  /** Over a whole run, panicking or not, the k-th mapping is of the capability in slot 7 + k, at the k-th
      2 MiB from 0x8820_0000. */
  lemma MappingIsSlotSevenPlus(regions: nat, granted: set<nat>, ops: seq<Op>, k: nat)
    requires k < |Run(Begin(regions, granted), ops).maps|
    ensures Run(Begin(regions, granted), ops).maps[k] == Mapping(7 + k, 0x8820_0000 + k * 0x20_0000)
  {
    FramesMapAndUnmapOnce(regions, granted, ops);
  }

  // ----- What a mapping still held covers -----

  /** The grant based at `ptr`, in regions. */
  predicate LiveCount(p: Pool, ptr: nat, count: nat) {
    IsLiveBase(p, ptr) && p.live[RegionOf(ptr)] == count
  }

  lemma LiveCountStep(p: Pool, op: Op, ptr: nat, count: nat)
    requires WellFormed(p) && Step(p, op).reply != Panicked && LiveCount(p, ptr, count) && op != Munmap(ptr)
    ensures LiveCount(Step(p, op).pool, ptr, count)
  {
    assert ptr == VaddrOf(RegionOf(ptr));
    assert op.Munmap? && IsLiveBase(p, op.ptr) ==> op.ptr == VaddrOf(RegionOf(op.ptr));
  }

  lemma MappedCount(p: Pool, op: Op, ptr: nat)
    requires Step(p, op).reply == Mapped(ptr)
    ensures op.MmapNew? && LiveCount(Step(p, op).pool, ptr, RegionsFor(op.size))
  {
    AddressRoundTrip(p.next, 0);
  }

  /** While a mapping is held its grant is live, and as large as its size called for. */
  lemma {:induction false} HeldCount(regions: nat, granted: set<nat>, ops: seq<Op>, ptr: nat, i: nat)
    requires i < |ops| && !Run(Begin(regions, granted), ops).panicked
    requires HeldSince(Begin(regions, granted), ops, ptr, i)
    ensures ops[i].MmapNew? && LiveCount(Run(Begin(regions, granted), ops).pool, ptr, RegionsFor(ops[i].size))
    decreases |ops|
  {
    var h, front, last := Begin(regions, granted), ops[..|ops| - 1], ops[|ops| - 1];
    var mid := Run(h, front);
    hide Step, LiveCount, RegionsFor, WellFormed, HeldSince;
    if i == |front| {
      HeldAtLast(h, ops, ptr, i);
      MappedCount(mid.pool, last, ptr);
    } else {
      HeldExtends(h, ops, ptr, i);
      HeldCount(regions, granted, front, ptr, i);
      BeginInv(regions, granted);
      RunKeepsInv(h, front);
      LiveCountStep(mid.pool, last, ptr, RegionsFor(ops[i].size));
    }
  }

  lemma HeldAtLast(h: History, ops: seq<Op>, ptr: nat, i: nat)
    requires i == |ops| - 1 && HeldSince(h, ops, ptr, i)
    ensures Step(Run(h, ops[..|ops| - 1]).pool, ops[i]).reply == Mapped(ptr)
  {
  }

  /** Unmapping a held mapping unmaps the capabilities that very mapping mapped, in order: as many as its
      size called for, from the one its address says. */
  lemma UnmapGivesBack(regions: nat, granted: set<nat>, ops: seq<Op>, ptr: nat, i: nat)
    requires i < |ops| && !Run(Begin(regions, granted), ops).panicked
    requires HeldSince(Begin(regions, granted), ops, ptr, i)
    ensures ops[i].MmapNew? && ptr >= 0x8820_0000
    ensures var unmaps := Step(Run(Begin(regions, granted), ops).pool, Munmap(ptr)).unmaps;
            var maps := Step(Run(Begin(regions, granted), ops[..i]).pool, ops[i]).maps;
            && |unmaps| == |maps| == RegionsFor(ops[i].size)
            && (forall k :: 0 <= k < |unmaps| ==> unmaps[k] == 7 + (ptr - 0x8820_0000) / 0x20_0000 + k)
            && (forall k :: 0 <= k < |unmaps| ==> maps[k] == Mapping(unmaps[k], ptr + k * 0x20_0000))
  {
    HeldCount(regions, granted, ops, ptr, i);
    hide Run, RegionsFor;
    MappedMaps(Run(Begin(regions, granted), ops[..i]).pool, ops[i], ptr);
  }

  lemma MappedMaps(p: Pool, op: Op, ptr: nat)
    requires Step(p, op).reply == Mapped(ptr)
    ensures op.MmapNew? && ptr == 0x8820_0000 + p.next * 0x20_0000
    ensures var maps := Step(p, op).maps;
            && |maps| == RegionsFor(op.size)
            && forall k :: 0 <= k < |maps| ==> maps[k] == Mapping(7 + p.next + k, ptr + k * 0x20_0000)
  {
  }

  /** `addr` is inside a mapping the run holds. */
  ghost predicate HeldOver(h: History, ops: seq<Op>, addr: nat) {
    exists ptr, i :: Covers(h, ops, ptr, i, addr)
  }

  ghost predicate Covers(h: History, ops: seq<Op>, ptr: nat, i: nat, addr: nat) {
    && i < |ops| && ops[i].MmapNew? && HeldSince(h, ops, ptr, i)
    && ptr <= addr < ptr + RegionsFor(ops[i].size) * 0x20_0000
  }

  lemma LiveIsCovered(p: Pool, addr: nat) returns (ptr: nat)
    requires WellFormed(p) && addr >= ARENA_VADDR && IsLive(p, RegionOf(addr))
    ensures IsLiveBase(p, ptr) && ptr <= addr < ptr + p.live[RegionOf(ptr)] * 0x20_0000
  {
    var s :| s in p.live && s <= RegionOf(addr) < s + p.live[s];
    ptr := VaddrOf(s);
    AddressRoundTrip(s, 0);
  }

  lemma CoveredIsLive(p: Pool, ptr: nat, addr: nat)
    requires IsLiveBase(p, ptr) && ptr <= addr < ptr + p.live[RegionOf(ptr)] * 0x20_0000
    ensures addr >= ARENA_VADDR && IsLive(p, RegionOf(addr))
  {
    var s := RegionOf(ptr);
    assert s in p.live && s <= RegionOf(addr) < s + p.live[s];
  }

  lemma WriteReply(p: Pool, addr: nat, value: byte)
    ensures var reply := Step(p, Write(addr, value)).reply;
            reply == if addr >= ARENA_VADDR && IsLive(p, RegionOf(addr)) then Done else Fault
  {
  }

  /** A store faults exactly outside the mappings a run still holds, each of the size asked for in whole
      2 MiB. */
  lemma StoreLandsIffHeld(regions: nat, granted: set<nat>, ops: seq<Op>, addr: nat, value: byte)
    requires !Run(Begin(regions, granted), ops).panicked
    ensures var reply := Step(Run(Begin(regions, granted), ops).pool, Write(addr, value)).reply;
            && (reply == Done <==> HeldOver(Begin(regions, granted), ops, addr))
            && (reply == Done || reply == Fault)
  {
    hide Run, RegionsFor, WellFormed, HeldSince, Step, CallsOnce, AllRetired, IsLive, IsLiveBase;
    var h := Begin(regions, granted);
    var p := Run(h, ops).pool;
    BeginInv(regions, granted);
    RunKeepsInv(h, ops);
    WriteReply(p, addr, value);
    if addr >= ARENA_VADDR && IsLive(p, RegionOf(addr)) {
      var ptr := LiveIsCovered(p, addr);
      LiveIffHeld(regions, granted, ops, ptr);
      var i: nat :| i < |ops| && HeldSince(h, ops, ptr, i);
      HeldCount(regions, granted, ops, ptr, i);
      assert Covers(h, ops, ptr, i, addr);
    }
    if HeldOver(h, ops, addr) {
      var ptr, i :| Covers(h, ops, ptr, i, addr);
      HeldCount(regions, granted, ops, ptr, i);
      CoveredIsLive(p, ptr, addr);
    }
  }

  /** `addr..addr+size` lies inside one mapping the run holds. */
  ghost predicate HeldAround(h: History, ops: seq<Op>, addr: nat, size: nat) {
    exists ptr, i :: Encloses(h, ops, ptr, i, addr, size)
  }

  ghost predicate Encloses(h: History, ops: seq<Op>, ptr: nat, i: nat, addr: nat, size: nat) {
    && i < |ops| && ops[i].MmapNew? && HeldSince(h, ops, ptr, i)
    && ptr <= addr && addr + size <= ptr + RegionsFor(ops[i].size) * 0x20_0000
  }

  predicate Spans(p: Pool, ptr: nat, addr: nat, size: nat) {
    IsLiveBase(p, ptr) && ptr <= addr && addr + size <= ptr + p.live[RegionOf(ptr)] * 0x20_0000
  }

  lemma RemapReply(p: Pool, addr: nat, size: nat)
    ensures Step(p, MmapRemap(addr, size)).reply == Done <==> exists ptr :: Spans(p, ptr, addr, size)
  {
    if InsideLiveGrant(p, addr, size) {
      var s :| s in p.live && VaddrOf(s) <= addr && addr + size <= VaddrOf(s + p.live[s]);
      AddressRoundTrip(s, 0);
      assert Spans(p, VaddrOf(s), addr, size);
    }
    if ptr :| Spans(p, ptr, addr, size) {
      var s := RegionOf(ptr);
      assert s in p.live && VaddrOf(s) <= addr && addr + size <= VaddrOf(s + p.live[s]);
    }
  }

  /** A remap is within its caller's contract exactly inside one mapping the run still holds. */
  lemma RemapActsIffHeld(regions: nat, granted: set<nat>, ops: seq<Op>, addr: nat, size: nat)
    requires !Run(Begin(regions, granted), ops).panicked
    ensures Step(Run(Begin(regions, granted), ops).pool, MmapRemap(addr, size)).reply == Done <==>
            HeldAround(Begin(regions, granted), ops, addr, size)
  {
    hide Run, RegionsFor, HeldSince, Step, IsLiveBase;
    var h := Begin(regions, granted);
    var p := Run(h, ops).pool;
    RemapReply(p, addr, size);
    if Step(p, MmapRemap(addr, size)).reply == Done {
      var ptr :| Spans(p, ptr, addr, size);
      LiveIffHeld(regions, granted, ops, ptr);
      var i: nat :| i < |ops| && HeldSince(h, ops, ptr, i);
      HeldCount(regions, granted, ops, ptr, i);
      assert Encloses(h, ops, ptr, i, addr, size);
    }
    if HeldAround(h, ops, addr, size) {
      var ptr, i :| Encloses(h, ops, ptr, i, addr, size);
      HeldCount(regions, granted, ops, ptr, i);
      assert Spans(p, ptr, addr, size);
    }
  }

  // ----- Memory -----

  /** The byte an address holds, from the history alone: the last store there, unless it was remapped since;
      zero if there was none. */
  function LastStored(h: History, ops: seq<Op>, vaddr: nat): byte {
    if ops == [] then 0 as byte else
    var front, last := ops[..|ops| - 1], ops[|ops| - 1];
    if Run(h, front).panicked || Step(Run(h, front).pool, last).reply != Done then LastStored(h, front, vaddr)
    else match last
         case Write(addr, value) => if addr == vaddr then value else LastStored(h, front, vaddr)
         case MmapRemap(addr, size) => if addr <= vaddr < addr + size then 0 as byte else LastStored(h, front, vaddr)
         case _ => LastStored(h, front, vaddr)
  }

  lemma ReadStep(p: Pool, op: Op, vaddr: nat)
    ensures Read(Step(p, op).pool, vaddr) ==
            if Step(p, op).reply != Done then Read(p, vaddr)
            else match op
                 case Write(addr, value) => if addr == vaddr then value else Read(p, vaddr)
                 case MmapRemap(addr, size) => if addr <= vaddr < addr + size then 0 as byte else Read(p, vaddr)
                 case _ => Read(p, vaddr)
  {
  }

  /** Over every run each byte is the one last stored there, zero before any store and after a remap,
      whatever was mapped and unmapped meanwhile. */
  lemma {:induction false} ReadIsLastStored(regions: nat, granted: set<nat>, ops: seq<Op>, vaddr: nat)
    ensures Read(Run(Begin(regions, granted), ops).pool, vaddr) == LastStored(Begin(regions, granted), ops, vaddr)
  {
    hide Step, Read;
    if ops == [] {
      NothingStored(regions, granted, vaddr);
    } else {
      ReadIsLastStored(regions, granted, ops[..|ops| - 1], vaddr);
      ReadStep(Run(Begin(regions, granted), ops[..|ops| - 1]).pool, ops[|ops| - 1], vaddr);
    }
  }

  lemma NothingStored(regions: nat, granted: set<nat>, vaddr: nat)
    ensures Read(Fresh(regions, granted), vaddr) == 0
  {
  }

  // ----- The next mapping -----

  /** With the first `frames` frames granted, the next mapping of any run is decided by the sum of all counts
      granted before: refused past the pool, a panic past the loader's grant, and otherwise based right
      after everything ever mapped. */
  lemma NextMapping(regions: nat, frames: nat, ops: seq<Op>, size: nat)
    requires regions <= USIZE_MAX && !Panics(regions, frames, ops)
    ensures var h := Run(Begin(regions, FirstFrames(frames)), ops);
            var end := Claimed(h.grants) + RegionsFor(size);
            var o := Step(h.pool, MmapNew(size));
            if end > regions then o == Outcome(h.pool, Exhausted, [], [])
            else if end > frames then o.reply == Panicked
            else o.reply == Mapped(0x8820_0000 + Claimed(h.grants) * 0x20_0000)
  {
    var h := Begin(regions, FirstFrames(frames));
    RunStaysWithinFrames(regions, frames, ops);
    RunKeepsParameters(h, ops);
    BumpIndexIsTotalGranted(regions, FirstFrames(frames), ops);
    hide Run, FirstFrames, Claimed, RegionsFor;
    NextMappingStep(Run(h, ops).pool, frames, size);
  }

  lemma NextMappingStep(p: Pool, frames: nat, size: nat)
    requires p.granted == FirstFrames(frames) && p.next <= frames && p.regions <= USIZE_MAX
    ensures var end := p.next + RegionsFor(size);
            var o := Step(p, MmapNew(size));
            if end > p.regions then o == Outcome(p, Exhausted, [], [])
            else if end > frames then o.reply == Panicked
            else o.reply == Mapped(0x8820_0000 + p.next * 0x20_0000)
  {
    hide RegionsFor;
    assert frames !in p.granted;
  }
}
