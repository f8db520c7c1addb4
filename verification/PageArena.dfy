/** The lock-free page arena: any number of callers advance one shared counter with a weak
    compare-exchange, each retrying when the exchange fails, for a reason or spuriously. */
module PageArena {
  import opened Prelude
  import opened PageRounding

  /** One caller inside `alloc`: the size asked for and its rounding, the counter value it last saw, how
      many calls had completed when it began, and how many of its exchanges failed because the counter
      had moved. */
  datatype Attempt = Attempt(request: nat, size: nat, off: nat, begun: nat, lost: nat)

  /** One completed call. `None` is exhaustion; `Some(off)` the offset granted. */
  datatype Call = Call(caller: nat, request: nat, size: nat, begun: nat, result: Option<nat>)

  /** `held` is every value the counter has had, `next` the newest. */
  datatype State = State(capacity: nat, next: nat, held: set<nat>, attempts: map<nat, Attempt>, log: seq<Call>)

  function Start(capacity: nat): State {
    State(capacity, 0, {0}, map[], [])
  }

  datatype Action =
    | Begin(caller: nat, request: nat, seen: nat)  // round, then load the counter
    | Exchange(caller: nat)                        // the exchange succeeds
    | Retry(caller: nat, seen: nat)                // the exchange fails and reports a value
    | GiveUp(caller: nat)                          // the request does not fit after the value last seen

  /** `off.checked_add(size).filter(|&v| v <= ARENA_BYTES)` is `Some`. */
  predicate Fits(s: State, a: Attempt) {
    a.off + a.size <= USIZE_MAX && a.off + a.size <= s.capacity
  }

  /** The accesses are relaxed: a load, or an exchange that fails, may report any value the counter has had,
      except that one caller never sees the counter go back. An exchange that succeeds acts on the newest. */
  predicate Enabled(s: State, act: Action) {
    match act
    case Begin(c, request, seen) => c !in s.attempts && request <= USIZE_MAX && seen in s.held
    case Exchange(c) => c in s.attempts && Fits(s, s.attempts[c]) && s.next == s.attempts[c].off
    case Retry(c, seen) => c in s.attempts && Fits(s, s.attempts[c]) && seen in s.held && s.attempts[c].off <= seen
    case GiveUp(c) => c in s.attempts && !Fits(s, s.attempts[c])
  }

  function Finish(s: State, c: nat, result: Option<nat>): State
    requires c in s.attempts
  {
    var a := s.attempts[c];
    s.(attempts := s.attempts - {c}, log := s.log + [Call(c, a.request, a.size, a.begun, result)])
  }

  function Next(s: State, act: Action): State
    requires Enabled(s, act)
  {
    match act
    case Begin(c, request, seen) =>
      s.(attempts := s.attempts[c := Attempt(request, MaskRound(request), seen, |s.log|, 0)])
    case Exchange(c) =>
      var a := s.attempts[c];
      Finish(s.(next := a.off + a.size, held := s.held + {a.off + a.size}), c, Some(a.off))
    case Retry(c, seen) =>
      var a := s.attempts[c];
      s.(attempts := s.attempts[c := a.(off := seen, lost := if seen == a.off then a.lost else a.lost + 1)])
    case GiveUp(c) => Finish(s, c, None)
  }

  /** One interleaving of the callers' steps; a step scheduled while not enabled does nothing. */
  function Run(s: State, acts: seq<Action>): State {
    if acts == [] then s else
    var mid := Run(s, acts[..|acts| - 1]);
    if Enabled(mid, acts[|acts| - 1]) then Next(mid, acts[|acts| - 1]) else mid
  }

  // ----- The sequential allocator it implements -----

  /** The offset granted, if any, and the counter after one call of a sequential bump allocator. */
  function Bump(capacity: nat, next: nat, size: nat): (Option<nat>, nat) {
    if next + size <= USIZE_MAX && next + size <= capacity then (Some(next), next + size) else (None, next)
  }

  /** The counter after the calls of `log`, run one at a time. */
  function Sequential(capacity: nat, log: seq<Call>): nat {
    if log == [] then 0
    else Bump(capacity, Sequential(capacity, log[..|log| - 1]), log[|log| - 1].size).1
  }

  /** Run one at a time in log order, every call gets the result it was given. */
  ghost predicate Legal(capacity: nat, log: seq<Call>) {
    forall k :: 0 <= k < |log| ==> LegalAt(capacity, log, k)
  }

  ghost predicate LegalAt(capacity: nat, log: seq<Call>, k: nat)
    requires k < |log|
  {
    log[k].result == Bump(capacity, Sequential(capacity, log[..k]), log[k].size).0
  }

  function Granted(log: seq<Call>): nat {
    if log == [] then 0
    else Granted(log[..|log| - 1]) + (if log[|log| - 1].result.Some? then log[|log| - 1].size else 0)
  }

  // ----- The invariant -----

  /** What an attempt knows stays true while others move the counter: it last saw a page-aligned value
      the counter has reached, and each lost exchange saw the counter move by a page or more. */
  ghost predicate AttemptOk(next: nat, calls: nat, a: Attempt) {
    && a.request <= USIZE_MAX && a.size == MaskRound(a.request)
    && IsPageMultiple(a.size)
    && IsPageMultiple(a.off)
    && a.off <= next
    && a.begun <= calls
    && a.lost * 4096 <= a.off
  }

  /** A logged call asked for whole pages and comes after every call completed before it began; an
      offset it was granted is page-aligned and its range is below the counter. */
  ghost predicate CallOk(next: nat, log: seq<Call>, k: nat)
    requires k < |log|
  {
    var c := log[k];
    && c.request <= USIZE_MAX && c.size == MaskRound(c.request)
    && IsPageMultiple(c.size)
    && c.begun <= k
    && (c.result.Some? ==> IsPageMultiple(c.result.value) && c.result.value + c.size <= next)
  }

  ghost predicate Inv(s: State) {
    && s.next in s.held && s.next <= s.capacity
    && (forall v :: v in s.held ==> v <= s.next && IsPageMultiple(v))
    && s.next == Sequential(s.capacity, s.log) == Granted(s.log)
    && Legal(s.capacity, s.log)
    && (forall c :: c in s.attempts ==> AttemptOk(s.next, |s.log|, s.attempts[c]))
    && (forall k :: 0 <= k < |s.log| ==> CallOk(s.next, s.log, k))
  }

  lemma LogGrows(capacity: nat, log: seq<Call>, c: Call)
    requires Legal(capacity, log) && c.result == Bump(capacity, Sequential(capacity, log), c.size).0
    ensures Legal(capacity, log + [c])
    ensures Sequential(capacity, log + [c]) == Bump(capacity, Sequential(capacity, log), c.size).1
    ensures Granted(log + [c]) == Granted(log) + if c.result.Some? then c.size else 0
  {
    var more := log + [c];
    assert more[..|log|] == log;
    forall k | 0 <= k < |more| ensures LegalAt(capacity, more, k) {
      assert more[..k] == log[..k];
      assert k < |log| ==> LegalAt(capacity, log, k);
    }
  }

  lemma PageSum(a: nat, b: nat)
    ensures IsPageMultiple(a) && IsPageMultiple(b) ==> IsPageMultiple(a + b)
  {
  }

  /** Completing a call with the sequential allocator's answer keeps the invariant. */
  lemma FinishKeepsInv(s: State, c: nat, next: nat, result: Option<nat>)
    requires Inv(s) && c in s.attempts
    requires (result, next) == Bump(s.capacity, s.next, s.attempts[c].size)
    ensures Inv(Finish(s.(next := next, held := s.held + {next}), c, result))
  {
    hide Legal, Sequential, Granted, MaskRound, IsPageMultiple;
    PageSum(s.next, s.attempts[c].size);
    var t := Finish(s.(next := next, held := s.held + {next}), c, result);
    LogGrows(s.capacity, s.log, t.log[|s.log|]);
    assert AttemptOk(s.next, |s.log|, s.attempts[c]);
    forall k | 0 <= k < |t.log| ensures CallOk(t.next, t.log, k) {
      assert k < |s.log| ==> CallOk(s.next, s.log, k);
    }
  }

  lemma NextKeepsInv(s: State, act: Action)
    requires Inv(s) && Enabled(s, act)
    ensures Inv(Next(s, act))
  {
    hide Legal, Sequential, Granted, MaskRound;
    assert act.caller in s.attempts ==> AttemptOk(s.next, |s.log|, s.attempts[act.caller]);
    match act
    case Begin(c, request, seen) =>
      MaskRoundIsLeastPageMultiple(request);
    case Retry(c, seen) =>
    case Exchange(c) =>
      FinishKeepsInv(s, c, s.attempts[c].off + s.attempts[c].size, Some(s.attempts[c].off));
    case GiveUp(c) =>
      FinishKeepsInv(s, c, s.next, None);
      assert s.held + {s.next} == s.held;
  }

  /** Along every interleaving the invariant holds, the counter never falls and the log only grows. */
  lemma {:induction false} RunKeepsInv(s: State, acts: seq<Action>)
    requires Inv(s)
    ensures var t := Run(s, acts); Inv(t) && t.capacity == s.capacity && s.next <= t.next && s.log <= t.log
  {
    hide Inv;
    if acts != [] {
      var mid := Run(s, acts[..|acts| - 1]);
      RunKeepsInv(s, acts[..|acts| - 1]);
      if Enabled(mid, acts[|acts| - 1]) {
        NextKeepsInv(mid, acts[|acts| - 1]);
      }
    }
  }

  // ----- Main results -----

  /** Linearizability: under every interleaving, the completed calls in the order they took effect are
      a run of the sequential allocator with the same results and the same final counter, and a call
      that began after another completed comes after it in that order. */
  lemma Linearizable(capacity: nat, acts: seq<Action>)
    ensures var t := Run(Start(capacity), acts);
            && Legal(capacity, t.log)
            && t.next == Sequential(capacity, t.log)
            && forall k :: 0 <= k < |t.log| ==> t.log[k].begun <= k
  {
    RunKeepsInv(Start(capacity), acts);
    var t := Run(Start(capacity), acts);
    forall k | 0 <= k < |t.log| ensures t.log[k].begun <= k {
      assert CallOk(t.next, t.log, k);
    }
  }

  /** Conservation: the counter is the sum of the rounded sizes granted, and within the arena. */
  lemma CounterIsTotalGranted(capacity: nat, acts: seq<Action>)
    ensures var t := Run(Start(capacity), acts); t.next == Granted(t.log) <= capacity
  {
    RunKeepsInv(Start(capacity), acts);
  }

  lemma {:induction false} SequentialIsGranted(capacity: nat, log: seq<Call>)
    requires Legal(capacity, log)
    ensures Sequential(capacity, log) == Granted(log)
  {
    if log != [] {
      var front := log[..|log| - 1];
      assert forall k :: 0 <= k < |front| ==> front[..k] == log[..k];
      assert forall k :: 0 <= k < |front| ==> LegalAt(capacity, log, k) ==> LegalAt(capacity, front, k);
      SequentialIsGranted(capacity, front);
      assert LegalAt(capacity, log, |log| - 1);
    }
  }

  lemma LegalPrefix(capacity: nat, log: seq<Call>, k: nat)
    requires Legal(capacity, log) && k <= |log|
    ensures Legal(capacity, log[..k])
  {
    forall i | 0 <= i < k ensures LegalAt(capacity, log[..k], i) {
      assert log[..k][..i] == log[..i];
      assert LegalAt(capacity, log, i);
    }
  }

  /** Every call's result is decided by the sizes granted before it took effect: the sum of those, if its own
      size still fits above it, and refusal otherwise; and its size is the least multiple of 4096 that holds
      what was asked, unless rounding wrapped. */
  lemma EachResultIsExact(capacity: nat, acts: seq<Action>, k: nat)
    requires capacity <= USIZE_MAX && k < |Run(Start(capacity), acts).log|
    ensures var log := Run(Start(capacity), acts).log;
            var c, before := log[k], Granted(log[..k]);
            && c.result == (if before + c.size <= capacity then Some(before) else None)
            && c.size % 4096 == 0
            && (c.request <= USIZE_MAX - 4095 ==> c.request <= c.size < c.request + 4096)
  {
    hide Run, MaskRound, Granted, Sequential, IsPageMultiple, AttemptOk;
    Linearizable(capacity, acts);
    LoggedCallOk(capacity, acts, k);
    var t := Run(Start(capacity), acts);
    LegalPrefix(capacity, t.log, k);
    SequentialIsGranted(capacity, t.log[..k]);
    assert LegalAt(capacity, t.log, k);
    RoundedUp(t.log[k].request);
  }

  lemma LoggedCallOk(capacity: nat, acts: seq<Action>, k: nat)
    requires k < |Run(Start(capacity), acts).log|
    ensures CallOk(Run(Start(capacity), acts).next, Run(Start(capacity), acts).log, k)
  {
    RunKeepsInv(Start(capacity), acts);
  }

  lemma RoundedUp(request: nat)
    requires request <= USIZE_MAX
    ensures MaskRound(request) % 4096 == 0
    ensures request <= USIZE_MAX - 4095 ==> request <= MaskRound(request) < request + 4096
  {
    hide MaskRound;
    MaskRoundIsLeastPageMultiple(request);
    var up := if request % 4096 == 0 then request else request + (4096 - request % 4096);
    assert IsPageMultiple(up) && request <= up < request + 4096;
  }

  lemma {:induction false} LegalGrantAt(capacity: nat, log: seq<Call>, i: nat, j: nat)
    requires Legal(capacity, log) && i < j <= |log| && log[i].result.Some?
    ensures log[i].result.value + log[i].size <= Sequential(capacity, log[..j])
    decreases j
  {
    assert log[..j][..j - 1] == log[..j - 1];
    assert LegalAt(capacity, log, i);
    if i < j - 1 {
      LegalGrantAt(capacity, log, i, j - 1);
    }
  }

  /** Granted ranges are page-aligned, inside the arena and pairwise disjoint, whoever was granted them. */
  lemma RangesAreDisjoint(capacity: nat, acts: seq<Action>, i: nat, j: nat)
    requires var log := Run(Start(capacity), acts).log; i < j < |log| && log[i].result.Some? && log[j].result.Some?
    ensures var log := Run(Start(capacity), acts).log;
            && IsPageMultiple(log[i].result.value) && IsPageMultiple(log[i].size)
            && log[i].result.value + log[i].size <= log[j].result.value
            && log[j].result.value + log[j].size <= capacity
  {
    RunKeepsInv(Start(capacity), acts);
    var t := Run(Start(capacity), acts);
    assert CallOk(t.next, t.log, i) && CallOk(t.next, t.log, j) && LegalAt(capacity, t.log, j);
    LegalGrantAt(capacity, t.log, i, j);
  }

  /** A refusal is final: at the moment a caller gives up, and after any further steps by anyone, the
      size it asked for does not fit above the counter. */
  lemma RefusalIsFinal(capacity: nat, acts: seq<Action>, caller: nat, more: seq<Action>)
    requires Enabled(Run(Start(capacity), acts), GiveUp(caller))
    ensures var s := Run(Start(capacity), acts);
            Bump(capacity, Run(s, more).next, s.attempts[caller].size).0 == None
  {
    RunKeepsInv(Start(capacity), acts);
    var s := Run(Start(capacity), acts);
    assert AttemptOk(s.next, |s.log|, s.attempts[caller]);
    RunKeepsInv(s, more);
  }

  /** However the callers interleave, one call loses the exchange to another at most once per arena
      page: each loss saw the counter advance by at least a page. Spurious failures are not counted. */
  lemma LossesAreBounded(capacity: nat, acts: seq<Action>, caller: nat)
    requires caller in Run(Start(capacity), acts).attempts
    ensures Run(Start(capacity), acts).attempts[caller].lost <= capacity / PAGE
  {
    RunKeepsInv(Start(capacity), acts);
    var s := Run(Start(capacity), acts);
    assert AttemptOk(s.next, |s.log|, s.attempts[caller]);
  }

  lemma {:induction false} SequentialFits(capacity: nat, log: seq<Call>)
    ensures Sequential(capacity, log) <= capacity && Sequential(capacity, log) <= USIZE_MAX
  {
    if log != [] {
      SequentialFits(capacity, log[..|log| - 1]);
    }
  }

  /** A granted range holds what was asked for exactly when rounding did not overflow the word. A request
      it did overflow is never refused, and what it is granted is empty. */
  lemma GrantCoversIff(capacity: nat, acts: seq<Action>, k: nat)
    requires k < |Run(Start(capacity), acts).log|
    ensures var c := Run(Start(capacity), acts).log[k];
            && (c.result.Some? ==> (c.request <= c.size <==> c.request <= USIZE_MAX - 4095))
            && (c.request > USIZE_MAX - 4095 ==> c.result.Some? && c.size == 0)
  {
    RunKeepsInv(Start(capacity), acts);
    var t := Run(Start(capacity), acts);
    hide Run, MaskRound;
    assert CallOk(t.next, t.log, k) && LegalAt(capacity, t.log, k);
    MaskRoundIsLeastPageMultiple(t.log[k].request);
    MaskRoundCoversIff(t.log[k].request);
    SequentialFits(capacity, t.log[..k]);
  }

  // ----- The retry loop as each caller runs it -----

  /** What happens between two of a caller's steps: the other callers' steps, in order, whether the next
      exchange fails spuriously, and the value it then tries to report. */
  datatype Turn = Turn(rivals: seq<Action>, spurious: bool, sees: nat)

  /** What a relaxed access reports: `sees`, if the counter ever had that value and it is no step back. */
  function Load(s: State, floor: nat, sees: nat): nat {
    if sees in s.held && floor <= sees then sees else s.next
  }

  lemma LoadReports(s: State, me: nat, sees: nat)
    requires Inv(s)
    ensures Load(s, 0, sees) in s.held
    ensures me in s.attempts ==> var v := Load(s, s.attempts[me].off, sees); v in s.held && s.attempts[me].off <= v
  {
    assert me in s.attempts ==> AttemptOk(s.next, |s.log|, s.attempts[me]);
  }

  datatype Outcome = At(address: nat) | Exhausted | StillRetrying

  lemma {:induction false} RunConcat(s: State, a: seq<Action>, b: seq<Action>)
    ensures Run(s, a + b) == Run(Run(s, a), b)
    decreases |b|
  {
    if b == [] {
      assert a + b == a;
    } else {
      assert (a + b)[..|a + b| - 1] == a + b[..|b| - 1];
      RunConcat(s, a, b[..|b| - 1]);
    }
  }

  lemma RunNothing(s: State)
    ensures Run(s, []) == s
  {
  }

  /** Other callers' steps leave a caller's own attempt alone. */
  lemma {:induction false} RivalsKeepAttempt(s: State, rivals: seq<Action>, me: nat)
    requires forall a :: a in rivals ==> a.caller != me
    ensures me in Run(s, rivals).attempts <==> me in s.attempts
    ensures me in s.attempts ==> Run(s, rivals).attempts[me] == s.attempts[me]
  {
    if rivals != [] {
      assert rivals[|rivals| - 1] in rivals;
      RivalsKeepAttempt(s, rivals[..|rivals| - 1], me);
    }
  }

  class Arena {
    const base: nat  // the arena's own address
    var s: State     // the counter, and the callers that share it

    ghost predicate Valid()
      reads this
    {
      Inv(s)
    }

    constructor (base: nat, capacity: nat)
      ensures Valid() && this.base == base && s == Start(capacity)
    {
      this.base := base;
      s := Start(capacity);
    }

    method Step(ghost before: State, ghost acts: seq<Action>, act: Action) returns (ghost more: seq<Action>)
      requires Valid() && s == Run(before, acts) && Enabled(s, act)
      modifies this
      ensures Valid() && s == Next(old(s), act)
      ensures more == acts + [act] && s == Run(before, more)
    {
      NextKeepsInv(s, act);
      s := Next(s, act);
      more := acts + [act];
      assert more[..|acts|] == acts;
    }

    /** The compare-exchange retry loop. Its steps, among those of its rivals, are a run of the system
        above, and what it returns is what its own log entry says. */
    method Alloc(me: nat, request: nat, sees: nat, turns: seq<Turn>) returns (r: Outcome, ghost acts: seq<Action>)
      requires Valid() && me !in s.attempts && request <= USIZE_MAX
      requires forall t, a :: t in turns && a in t.rivals ==> a.caller != me
      modifies this
      ensures Valid() && s == Run(old(s), acts)
      ensures r.StillRetrying? <==> me in s.attempts
      ensures !r.StillRetrying? ==>
                exists off :: s.log != []
                              && s.log[|s.log| - 1] == Call(me, request, MaskRound(request), |old(s).log|, off)
                              && r == if off.Some? then At(base + off.value) else Exhausted
    {
      hide Inv, Run, MaskRound;
      var size := MaskRound(request);
      var off := Load(s, 0, sees);
      LoadReports(s, me, sees);
      RunNothing(s);
      ghost var before := s;
      acts := Step(before, [], Begin(me, request, off));
      var k := 0;
      while k < |turns|
        invariant k <= |turns|
        invariant Valid() && s == Run(before, acts)
        invariant me in s.attempts
        invariant s.attempts[me].request == request && s.attempts[me].size == size
        invariant s.attempts[me].off == off && s.attempts[me].begun == |before.log|
      {
        assert turns[k] in turns;
        RivalsKeepAttempt(s, turns[k].rivals, me);
        RunKeepsInv(s, turns[k].rivals);
        RunConcat(before, acts, turns[k].rivals);
        s := Run(s, turns[k].rivals);
        acts := acts + turns[k].rivals;
        var end := off + size;
        if end > USIZE_MAX || end > s.capacity {
          acts := Step(before, acts, GiveUp(me));
          return Exhausted, acts;
        }
        if s.next == off && !turns[k].spurious {
          acts := Step(before, acts, Exchange(me));
          return At(base + off), acts;
        }
        LoadReports(s, me, turns[k].sees);
        off := Load(s, off, turns[k].sees);
        acts := Step(before, acts, Retry(me, off));
        k := k + 1;
      }
      r := StillRetrying;
    }
  }
}
