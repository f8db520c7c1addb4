/** What holds over every run of the frame-backed arena: an arbitrary sequence of mappings,
    unmappings, remappings and guest writes, stopping at the first panic. */
module FramePoolRuns {
  import opened Prelude
  import opened FramePool

  /** One successful `wasmtime_mmap_new`, in regions. */
  datatype Grant = Grant(start: nat, count: nat)

  /** Everything a run has done so far: its grants and its kernel calls, oldest first. */
  datatype History = History(pool: Pool, panicked: bool, grants: seq<Grant>, maps: seq<Mapping>, unmaps: seq<nat>)

  function Advance(h: History, op: Op): History {
    if h.panicked then h else
    var o := Step(h.pool, op);
    History(
      o.pool,
      o.reply.Panicked?,
      if o.reply.Mapped? then h.grants + [Grant(h.pool.next, o.pool.next - h.pool.next)] else h.grants,
      h.maps + o.maps,
      h.unmaps + o.unmaps)
  }

  function Begin(regions: nat, granted: set<nat>): History {
    History(Fresh(regions, granted), false, [], [], [])
  }

  function Run(h: History, ops: seq<Op>): History {
    if ops == [] then h else Advance(Run(h, ops[..|ops| - 1]), ops[|ops| - 1])
  }

  /** Total regions ever granted. */
  function Claimed(grants: seq<Grant>): nat {
    if grants == [] then 0 else Claimed(grants[..|grants| - 1]) + grants[|grants| - 1].count
  }

  function EndOf(grants: seq<Grant>): nat {
    if grants == [] then 0 else grants[|grants| - 1].start + grants[|grants| - 1].count
  }

  /** Grants in the order made tile the claimed part of the pool: each starts where the last ended. */
  ghost predicate Tiled(grants: seq<Grant>) {
    && (forall g :: g in grants ==> 1 <= g.count)
    && (grants != [] ==> grants[0].start == 0)
    && forall i, j :: 0 <= i && j == i + 1 && j < |grants| ==> grants[j].start == grants[i].start + grants[i].count
  }

  /** The k-th frame ever mapped is the pool's k-th, at that frame's own address. */
  ghost predicate MapsInOrder(maps: seq<Mapping>) {
    forall k :: 0 <= k < |maps| ==> maps[k] == Mapping(CPtrOf(k), VaddrOf(k))
  }

  ghost predicate Distinct(s: seq<nat>) {
    forall i, j :: 0 <= i < j < |s| ==> s[i] != s[j]
  }

  /** `cptr` is a claimed frame that no live grant covers. */
  predicate Retired(p: Pool, cptr: nat) {
    exists r: nat :: r < p.next && cptr == CPtrOf(r) && !IsLive(p, r)
  }

  ghost predicate AllRetired(p: Pool, cptrs: seq<nat>) {
    forall k :: 0 <= k < |cptrs| ==> Retired(p, cptrs[k])
  }

  /** What survives even a panic: grants tile, and no frame was mapped or unmapped twice. */
  ghost predicate CallsOnce(h: History) {
    && Tiled(h.grants)
    && EndOf(h.grants) <= h.pool.regions
    && MapsInOrder(h.maps)
    && Distinct(h.unmaps)
  }

  /** The inductive invariant of a run that has not panicked. */
  ghost predicate Inv(h: History) {
    && CallsOnce(h)
    && WellFormed(h.pool)
    && EndOf(h.grants) == |h.maps| == h.pool.next
    && (forall s :: s in h.pool.live ==> Grant(s, h.pool.live[s]) in h.grants)
    && AllRetired(h.pool, h.unmaps)
  }

  /** Claiming regions at or above the old bump index revives no retired frame. */
  lemma RetiredStays(p: Pool, q: Pool, cptrs: seq<nat>)
    requires AllRetired(p, cptrs) && p.next <= q.next
    requires forall s :: s in q.live ==> (s in p.live && q.live[s] == p.live[s]) || p.next <= s
    ensures AllRetired(q, cptrs)
  {
  }

  lemma MapExtendsCallsOnce(h: History, end: nat)
    requires CallsOnce(h) && EndOf(h.grants) == |h.maps| == h.pool.next < end <= h.pool.regions
    ensures var g := h.(pool := h.pool.(next := end), grants := h.grants + [Grant(h.pool.next, end - h.pool.next)],
                        maps := h.maps + MapsOf(h.pool.next, end));
            CallsOnce(g) && EndOf(g.grants) == |g.maps| == end
  {
  }

  lemma AdvanceMap(h: History, op: Op)
    requires Inv(h) && !h.panicked && op.MmapNew? && Step(h.pool, op).reply.Mapped?
    ensures Inv(Advance(h, op))
  {
    var p, o := h.pool, Step(h.pool, op);
    var g := Advance(h, op);
    MapExtendsCallsOnce(h, o.pool.next);
    assert CallsOnce(g) && EndOf(g.grants) == |g.maps| == g.pool.next by {
      assert h.unmaps + o.unmaps == h.unmaps;
      hide CallsOnce, WellFormed, AllRetired;
    }
    StepKeepsWellFormed(p, op);
    RetiredStays(p, o.pool, h.unmaps);
    hide CallsOnce, WellFormed, AllRetired;
    assert h.unmaps + o.unmaps == h.unmaps;
    forall s | s in g.pool.live ensures Grant(s, g.pool.live[s]) in g.grants {
    }
  }

  lemma ReleasedIsNotLive(p: Pool, s: nat, r: nat)
    requires WellFormed(p) && s in p.live && s <= r < s + p.live[s]
    ensures IsLive(p, r) && !IsLive(p.(live := p.live - {s}), r)
  {
  }

  /** Releasing the grant at `s` retires exactly its frames, none of which was retired before. */
  lemma ReleaseRetires(p: Pool, s: nat, unmaps: seq<nat>)
    requires WellFormed(p) && s in p.live && AllRetired(p, unmaps) && Distinct(unmaps)
    ensures var all := unmaps + UnmapsOf(s, s + p.live[s]);
            AllRetired(p.(live := p.live - {s}), all) && Distinct(all)
  {
    var more := UnmapsOf(s, s + p.live[s]);
    RetiredStays(p, p.(live := p.live - {s}), unmaps);
    forall k | 0 <= k < |more| ensures Retired(p.(live := p.live - {s}), more[k]) && !Retired(p, more[k]) {
      ReleasedIsNotLive(p, s, s + k);
    }
  }

  lemma AdvanceUnmap(h: History, ptr: nat)
    requires Inv(h) && !h.panicked && IsLiveBase(h.pool, ptr)
    ensures Inv(Advance(h, Munmap(ptr)))
  {
    hide WellFormed, AllRetired, Distinct, UnmapsOf, Tiled, EndOf, MapsInOrder;
    var s := RegionOf(ptr);
    var g := Advance(h, Munmap(ptr));
    StepKeepsWellFormed(h.pool, Munmap(ptr));
    ReleaseRetires(h.pool, s, h.unmaps);
    assert h.maps + [] == h.maps;
    assert g.unmaps == h.unmaps + UnmapsOf(s, s + h.pool.live[s]);
  }

  /** Refusals, stray `munmap`s, remaps and guest writes make no kernel call and grant nothing. */
  lemma AdvanceQuiet(h: History, op: Op)
    requires Inv(h) && !h.panicked && !Step(h.pool, op).reply.Mapped? && !Step(h.pool, op).reply.Panicked?
    requires op.Munmap? ==> !IsLiveBase(h.pool, op.ptr)
    ensures Inv(Advance(h, op))
  {
    var o := Step(h.pool, op);
    StepKeepsWellFormed(h.pool, op);
    RetiredStays(h.pool, o.pool, h.unmaps);
    hide WellFormed, AllRetired, Distinct;
    assert h.maps + o.maps == h.maps && h.unmaps + o.unmaps == h.unmaps;
  }

  lemma AdvanceKeepsInv(h: History, op: Op)
    requires Inv(h) && !h.panicked && !Advance(h, op).panicked
    ensures Inv(Advance(h, op))
  {
    hide Inv;
    if Step(h.pool, op).reply.Mapped? {
      AdvanceMap(h, op);
    } else if op.Munmap? && IsLiveBase(h.pool, op.ptr) {
      AdvanceUnmap(h, op.ptr);
    } else {
      AdvanceQuiet(h, op);
    }
  }

  lemma PanicKeepsCallsOnce(h: History, op: Op)
    requires Inv(h) && !h.panicked && Advance(h, op).panicked
    ensures CallsOnce(Advance(h, op))
  {
  }

  lemma {:induction false} RunKeepsParameters(h: History, ops: seq<Op>)
    ensures Run(h, ops).pool.regions == h.pool.regions
    ensures Run(h, ops).pool.granted == h.pool.granted
  {
    if ops != [] {
      RunKeepsParameters(h, ops[..|ops| - 1]);
    }
  }

  /** The invariant holds along every run; a panic spoils only the pool it stopped in. */
  lemma {:induction false} RunKeepsInv(h: History, ops: seq<Op>)
    requires Inv(h) && !h.panicked
    ensures CallsOnce(Run(h, ops))
    ensures !Run(h, ops).panicked ==> Inv(Run(h, ops))
  {
    if ops != [] {
      RunKeepsInv(h, ops[..|ops| - 1]);
      var mid := Run(h, ops[..|ops| - 1]);
      hide *;
      if !mid.panicked {
        if Advance(mid, ops[|ops| - 1]).panicked {
          PanicKeepsCallsOnce(mid, ops[|ops| - 1]);
        } else {
          AdvanceKeepsInv(mid, ops[|ops| - 1]);
        }
      }
    }
  }

  // ----- Main results -----

  lemma BeginInv(regions: nat, granted: set<nat>)
    ensures Inv(Begin(regions, granted))
  {
  }

  lemma FrontIsTiled(grants: seq<Grant>)
    requires Tiled(grants) && grants != []
    ensures Tiled(grants[..|grants| - 1]) && grants[|grants| - 1].count >= 1
    ensures grants[|grants| - 1].start == EndOf(grants[..|grants| - 1])
  {
    var front := grants[..|grants| - 1];
    assert forall g :: g in front ==> g in grants;
    assert grants[|grants| - 1] in grants;
  }

  lemma {:induction false} EndIsTotal(grants: seq<Grant>)
    requires Tiled(grants)
    ensures |grants| <= Claimed(grants) == EndOf(grants)
  {
    if grants != [] {
      FrontIsTiled(grants);
      EndIsTotal(grants[..|grants| - 1]);
    }
  }

  lemma {:induction false} TilesAscend(grants: seq<Grant>, i: nat, j: nat)
    requires Tiled(grants) && i < j < |grants|
    ensures grants[i].start + grants[i].count <= grants[j].start
    decreases j
  {
    if i < j - 1 {
      TilesAscend(grants, i, j - 1);
      assert grants[j - 1] in grants;
    }
  }

  /** Conservation: the bump index is the sum of every count ever granted, released or not, and at
      most `regions` mappings ever succeed. */
  lemma BumpIndexIsTotalGranted(regions: nat, granted: set<nat>, ops: seq<Op>)
    ensures var h := Run(Begin(regions, granted), ops);
            && (!h.panicked ==> h.pool.next == Claimed(h.grants))
            && |h.grants| <= Claimed(h.grants) <= regions
  {
    BeginInv(regions, granted);
    RunKeepsInv(Begin(regions, granted), ops);
    RunKeepsParameters(Begin(regions, granted), ops);
    EndIsTotal(Run(Begin(regions, granted), ops).grants);
  }

  /** No address is granted twice in a run, whatever was released in between. */
  lemma AddressesAreNeverReused(regions: nat, granted: set<nat>, ops: seq<Op>, i: nat, j: nat)
    requires i < j < |Run(Begin(regions, granted), ops).grants|
    ensures var g := Run(Begin(regions, granted), ops).grants;
            VaddrOf(g[i].start + g[i].count) <= VaddrOf(g[j].start)
  {
    hide Run, WellFormed, AllRetired;
    BeginInv(regions, granted);
    RunKeepsInv(Begin(regions, granted), ops);
    TilesAscend(Run(Begin(regions, granted), ops).grants, i, j);
  }

  /** Over a whole run, panicking or not, the k-th mapping call is for frame k at frame k's own
      address, so no frame is mapped twice; and no frame is unmapped twice. */
  lemma FramesMapAndUnmapOnce(regions: nat, granted: set<nat>, ops: seq<Op>)
    ensures MapsInOrder(Run(Begin(regions, granted), ops).maps)
    ensures Distinct(Run(Begin(regions, granted), ops).unmaps)
  {
    BeginInv(regions, granted);
    RunKeepsInv(Begin(regions, granted), ops);
  }

  /** The operation at `i` mapped `ptr`, and nothing after it unmapped `ptr`. */
  ghost predicate HeldSince(h: History, ops: seq<Op>, ptr: nat, i: nat)
    requires i < |ops|
  {
    && !Run(h, ops[..i]).panicked
    && Step(Run(h, ops[..i]).pool, ops[i]).reply == Mapped(ptr)
    && forall k :: i < k < |ops| ==> ops[k] != Munmap(ptr)
  }

  ghost predicate Held(h: History, ops: seq<Op>, ptr: nat) {
    exists i: nat :: i < |ops| && HeldSince(h, ops, ptr, i)
  }

  /** What one operation does to the set of live bases. */
  lemma LiveBaseStep(p: Pool, op: Op, ptr: nat)
    requires WellFormed(p) && Step(p, op).reply != Panicked
    ensures IsLiveBase(Step(p, op).pool, ptr) <==>
            Step(p, op).reply == Mapped(ptr) || (IsLiveBase(p, ptr) && op != Munmap(ptr))
  {
    AddressRoundTrip(p.next, 0);
    if op.Munmap? && IsLiveBase(p, op.ptr) && IsLiveBase(p, ptr) && RegionOf(op.ptr) == RegionOf(ptr) {
      assert op.ptr == VaddrOf(RegionOf(ptr)) == ptr;
    }
  }

  lemma HeldExtends(h: History, ops: seq<Op>, ptr: nat, i: nat)
    requires i < |ops| - 1
    ensures HeldSince(h, ops, ptr, i) <==> HeldSince(h, ops[..|ops| - 1], ptr, i) && ops[|ops| - 1] != Munmap(ptr)
  {
    hide Run, Step;
    assert ops[..|ops| - 1][..i] == ops[..i];
  }

  lemma HeldStep(h: History, ops: seq<Op>, ptr: nat)
    requires ops != [] && !Run(h, ops[..|ops| - 1]).panicked
    ensures var front, last := ops[..|ops| - 1], ops[|ops| - 1];
            Held(h, ops, ptr) <==>
            Step(Run(h, front).pool, last).reply == Mapped(ptr) || (Held(h, front, ptr) && last != Munmap(ptr))
  {
    hide Run, Step;
    var front, last := ops[..|ops| - 1], ops[|ops| - 1];
    if Step(Run(h, front).pool, last).reply == Mapped(ptr) {
      assert HeldSince(h, ops, ptr, |ops| - 1);
    } else if Held(h, front, ptr) && last != Munmap(ptr) {
      var i: nat :| i < |front| && HeldSince(h, front, ptr, i);
      HeldExtends(h, ops, ptr, i);
    } else if Held(h, ops, ptr) {
      var i: nat :| i < |ops| && HeldSince(h, ops, ptr, i);
      if i < |front| {
        HeldExtends(h, ops, ptr, i);
      }
    }
  }

  /** An address is a live base exactly when the run mapped it and has not unmapped it since. */
  lemma {:induction false} LiveIffHeld(regions: nat, granted: set<nat>, ops: seq<Op>, ptr: nat)
    requires !Run(Begin(regions, granted), ops).panicked
    ensures IsLiveBase(Run(Begin(regions, granted), ops).pool, ptr) <==> Held(Begin(regions, granted), ops, ptr)
  {
    if ops != [] {
      var h, front := Begin(regions, granted), ops[..|ops| - 1];
      LiveIffHeld(regions, granted, front, ptr);
      BeginInv(regions, granted);
      RunKeepsInv(h, front);
      LiveBaseStep(Run(h, front).pool, ops[|ops| - 1], ptr);
      hide IsLiveBase, Held, Step;
      HeldStep(h, ops, ptr);
    }
  }

  /** `munmap` acts only on an address the run handed out and has not yet taken back; any other
      address, and a second `munmap` of the same one, changes nothing and calls no one. */
  lemma StrayUnmapIsNoOp(regions: nat, granted: set<nat>, ops: seq<Op>, ptr: nat)
    requires !Run(Begin(regions, granted), ops).panicked
    ensures var p := Run(Begin(regions, granted), ops).pool;
            Step(p, Munmap(ptr)) == Outcome(p, Done, [], []) <==>
            !Held(Begin(regions, granted), ops, ptr)
  {
    LiveIffHeld(regions, granted, ops, ptr);
    BeginInv(regions, granted);
    RunKeepsInv(Begin(regions, granted), ops);
    var p := Run(Begin(regions, granted), ops).pool;
    if IsLiveBase(p, ptr) {
      assert |Step(p, Munmap(ptr)).unmaps| == p.live[RegionOf(ptr)] >= 1;
    }
  }

  /** Blank memory: whatever was mapped, written and unmapped before, every byte of a new mapping
      reads as zero, and the mapping covers the size asked for. */
  lemma NewMappingsAreBlank(regions: nat, granted: set<nat>, ops: seq<Op>, size: nat, vaddr: nat)
    requires !Run(Begin(regions, granted), ops).panicked
    requires var o := Step(Run(Begin(regions, granted), ops).pool, MmapNew(size));
             o.reply.Mapped? && o.reply.base <= vaddr < o.reply.base + size
    ensures var o := Step(Run(Begin(regions, granted), ops).pool, MmapNew(size));
            Read(o.pool, vaddr) == 0 && IsLive(o.pool, RegionOf(vaddr))
  {
    BeginInv(regions, granted);
    RunKeepsInv(Begin(regions, granted), ops);
    var p := Run(Begin(regions, granted), ops).pool;
    assert p.next <= RegionOf(vaddr) < p.next + RegionsFor(size);
    assert p.next in Step(p, MmapNew(size)).pool.live;
  }

  ghost function FirstFrames(count: nat): (frames: set<nat>)
    ensures forall r: nat :: r in frames <==> r < count
  {
    if count == 0 then {} else FirstFrames(count - 1) + {count - 1}
  }

  /** Running `ops` on a pool of `regions` regions, its first `frames` frames granted, panics. */
  ghost predicate Panics(regions: nat, frames: nat, ops: seq<Op>) {
    Run(Begin(regions, FirstFrames(frames)), ops).panicked
  }

  lemma PanicStep(p: Pool, frames: nat, size: nat)
    requires p.granted == FirstFrames(frames) && p.next <= frames && p.regions <= USIZE_MAX
    ensures Step(p, MmapNew(size)).reply == Panicked <==> frames < p.next + RegionsFor(size) <= p.regions
  {
    assert frames !in p.granted;
  }

  lemma StepStaysWithinFrames(p: Pool, frames: nat, op: Op)
    requires p.granted == FirstFrames(frames) && p.next <= frames && Step(p, op).reply != Panicked
    ensures Step(p, op).pool.next <= frames
  {
    var q := Step(p, op).pool;
    if q.next > p.next {
      assert q.next - 1 in p.granted;
    }
  }

  /** A run that has not panicked has claimed only frames the loader granted. */
  lemma {:induction false} RunStaysWithinFrames(regions: nat, frames: nat, ops: seq<Op>)
    requires !Panics(regions, frames, ops)
    ensures Run(Begin(regions, FirstFrames(frames)), ops).pool.next <= frames
  {
    hide Step, FirstFrames;
    if ops != [] {
      var h, front := Begin(regions, FirstFrames(frames)), ops[..|ops| - 1];
      RunStaysWithinFrames(regions, frames, front);
      RunKeepsParameters(h, front);
      StepStaysWithinFrames(Run(h, front).pool, frames, ops[|ops| - 1]);
    }
  }

  /** When the loader grants the pool's first `frames` frames, the next mapping of a run panics exactly when
      the pool has room for it but the loader's grant does not. */
  lemma PanicsIffPastTheGrant(regions: nat, frames: nat, ops: seq<Op>, size: nat)
    requires regions <= USIZE_MAX && !Panics(regions, frames, ops)
    ensures Panics(regions, frames, ops + [MmapNew(size)]) <==>
            frames < Run(Begin(regions, FirstFrames(frames)), ops).pool.next + RegionsFor(size) <= regions
  {
    hide Step, FirstFrames;
    var h := Begin(regions, FirstFrames(frames));
    assert (ops + [MmapNew(size)])[..|ops|] == ops;
    RunStaysWithinFrames(regions, frames, ops);
    RunKeepsParameters(h, ops);
    PanicStep(Run(h, ops).pool, frames, size);
  }

  lemma NoPanicStep(p: Pool, frames: nat, op: Op)
    requires p.granted == FirstFrames(frames) && p.regions <= frames
    ensures Step(p, op).reply != Panicked
  {
  }

  lemma {:induction false} NoPanicWithinTheGrant(regions: nat, frames: nat, ops: seq<Op>)
    requires regions <= frames
    ensures !Panics(regions, frames, ops)
  {
    hide Step, FirstFrames;
    if ops != [] {
      var h, front := Begin(regions, FirstFrames(frames)), ops[..|ops| - 1];
      NoPanicWithinTheGrant(regions, frames, front);
      RunKeepsParameters(h, front);
      NoPanicStep(Run(h, front).pool, frames, ops[|ops| - 1]);
    }
  }

  lemma NothingRun(h: History)
    ensures Run(h, []) == h
  {
  }

  /** One mapping of a region more than was granted. */
  lemma UndergrantedPanics(regions: nat, frames: nat) returns (ops: seq<Op>)
    requires frames < regions <= USIZE_MAX
    ensures Panics(regions, frames, ops)
  {
    hide Step, FirstFrames, Run, RegionsFor;
    ops := [] + [MmapNew((frames + 1) * 0x20_0000)];
    NothingRun(Begin(regions, FirstFrames(frames)));
    PanicsIffPastTheGrant(regions, frames, [], ops[0].size);
  }

  /** The `expect` on mapping a frame is reachable exactly when the loader grants fewer frames than
      the pool has regions. The shipped pool has four regions and the demos grant three. */
  lemma PanicReachableIffUndergranted(regions: nat, frames: nat)
    requires regions <= USIZE_MAX
    ensures (exists ops :: Panics(regions, frames, ops)) <==> frames < regions
  {
    hide Panics;
    if regions <= frames {
      forall ops ensures !Panics(regions, frames, ops) {
        NoPanicWithinTheGrant(regions, frames, ops);
      }
    } else {
      var ops := UndergrantedPanics(regions, frames);
    }
  }
}
