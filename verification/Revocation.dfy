/** The revocation exchange among the runtime, the service and `grant-control`, as interleaved steps.
    The runtime's steps are `revoke_during_open_request`'s and the second probe's; the service is an
    environment, honest or not, that may or may not serve `REVOKE` while it awaits a chunk. */
module Revocation {
  import opened Prelude

  const OK: nat := 0
  const ACCESS: nat := 1

  /** Where the runtime is. In the second probe it has given the guest `answers` so far. `Passed` is
      `run_probe` returning `Ok`, `Trapped` the guest's trap, and `Failed` carries the detail word. */
  datatype Runtime =
    | SendOpen | AwaitOpen | SignalRevoke | AwaitDone | SendClose | AwaitClose
    | Probing(answers: seq<nat>) | AwaitProbe(answers: seq<nat>)
    | Passed(answers: seq<nat>) | Trapped | Failed(detail: nat)

  /** What the guest does next in the second probe: another request, a report that reads as a refusal or
      does not, or a trap. */
  datatype Move = Ask | Report(refused: bool) | Traps

  /** Any guest, by the statuses its requests have been answered with; it has fuel for so many requests. */
  datatype Guest = Guest(move: seq<nat> -> Move, fuel: nat)

  function MoveOf(g: Guest, answers: seq<nat>): Move {
    if |answers| >= g.fuel && g.move(answers).Ask? then Traps else g.move(answers)
  }

  datatype Control = AwaitRequest | SendRevoke | AwaitAck | SignalDone | Finished

  /** What the runtime has put in the shared frame, if the service has not yet taken it. */
  datatype Chunk = OpenChunk | CloseChunk | ProbeRequest(n: nat)

  /** How the service decides the status of a chunk, given whether it has served the revocation and, where
      that leaves it free, a choice of its own; and whether it serves `REVOKE` while it waits for a
      client's next chunk. */
  datatype Service = Service(decide: (bool, Chunk, nat) -> nat, servesWhileAwaiting: bool)

  /** The other promise: a revoked badge is refused on every later call. */
  ghost predicate RefusesRevoked(service: Service) {
    forall chunk, choice :: service.decide(true, chunk, choice) == ACCESS
  }

  datatype Event = RevokeServed | Replied(to: Chunk, status: nat)

  datatype State = State(
    service: Service,
    guest: Guest,
    runtime: Runtime,
    control: Control,
    awaiting: bool,          // the service holds an open request and waits for its next chunk
    revoked: bool,
    chunk: Option<Chunk>,
    reply: Option<nat>,
    revokeRequested: bool,   // REVOKE_REQUEST, signalled and not yet consumed
    revokePending: bool,     // grant-control's REVOKE, sent and not yet served
    acked: bool,
    done: bool,              // REVOKE_DONE, signalled and not yet consumed
    log: seq<Event>)         // what the service did, in order

  function Start(service: Service, guest: Guest): State {
    State(service, guest, SendOpen, AwaitRequest, false, false, None, None, false, false, false, false, [])
  }

  datatype Action =
    | RuntimeStep              // send, signal, wait or read a reply, as the code says
    | SyscallFails             // any of the runtime's system calls errors instead
    | ServeChunk(choice: nat)  // the service's own choice, where it has one
    | ServeRevoke
    | ControlStep

  predicate RuntimeReady(s: State) {
    match s.runtime
    case SendOpen | SignalRevoke | SendClose | Probing(_) => true
    case AwaitOpen | AwaitClose | AwaitProbe(_) => s.reply.Some?
    case AwaitDone => s.done
    case Passed(_) | Trapped | Failed(_) => false
  }

  predicate ControlReady(s: State) {
    match s.control
    case AwaitRequest => s.revokeRequested
    case SendRevoke | SignalDone => true
    case AwaitAck => s.acked
    case Finished => false
  }

  predicate Enabled(s: State, a: Action) {
    match a
    case RuntimeStep => RuntimeReady(s)
    case SyscallFails => s.runtime in {SendOpen, SignalRevoke, AwaitDone, SendClose}
    case ServeChunk(_) => s.chunk.Some?
    case ServeRevoke => s.revokePending && (!s.awaiting || s.service.servesWhileAwaiting)
    case ControlStep => ControlReady(s)
  }

  /** Where the runtime goes from where it is, and on a reply, by its status. */
  function Goes(s: State): Runtime
    requires RuntimeReady(s)
  {
    match s.runtime
    case SendOpen => AwaitOpen
    case AwaitOpen => if s.reply.value == OK then SignalRevoke else Failed(1)
    case SignalRevoke => AwaitDone
    case AwaitDone => SendClose
    case SendClose => AwaitClose
    case AwaitClose => if s.reply.value == ACCESS then Probing([]) else Failed(OrBit8(s.reply.value))
    case Probing(answers) =>
      (match MoveOf(s.guest, answers)
       case Ask => AwaitProbe(answers)
       case Report(refused) => if refused then Passed(answers) else Failed(3)
       case Traps => Trapped)
    case AwaitProbe(answers) => Probing(answers + [s.reply.value])
  }

  function Sent(s: State): Option<Chunk> {
    match s.runtime
    case SendOpen => Some(OpenChunk)
    case SendClose => Some(CloseChunk)
    case Probing(answers) => if MoveOf(s.guest, answers).Ask? then Some(ProbeRequest(|answers|)) else s.chunk
    case _ => s.chunk
  }

  /** One step of the runtime: it sends, signals, consumes a notification or consumes a reply. */
  function RuntimeNext(s: State): State
    requires RuntimeReady(s)
  {
    s.(runtime := Goes(s),
       chunk := Sent(s),
       reply := if s.runtime.AwaitOpen? || s.runtime.AwaitClose? || s.runtime.AwaitProbe? then None else s.reply,
       revokeRequested := s.revokeRequested || s.runtime.SignalRevoke?,
       done := s.done && !s.runtime.AwaitDone?)
  }

  function Proceeds(c: Control): Control {
    match c
    case AwaitRequest => SendRevoke
    case SendRevoke => AwaitAck
    case AwaitAck => SignalDone
    case SignalDone | Finished => Finished
  }

  /** One step of `grant-control`: it consumes the request, sends `REVOKE`, takes the acknowledgement, or
      signals that it is done. */
  function ControlNext(s: State): State
    requires ControlReady(s)
  {
    s.(control := Proceeds(s.control),
       revokeRequested := s.revokeRequested && !s.control.AwaitRequest?,
       revokePending := s.revokePending || s.control.SendRevoke?,
       acked := s.acked && !s.control.AwaitAck?,
       done := s.done || s.control.SignalDone?)
  }

  /** The service takes a chunk and decides its status. An accepted opening chunk leaves it waiting for
      the next. */
  function Serve(s: State, choice: nat): State
    requires s.chunk.Some?
  {
    var answer := s.service.decide(s.revoked, s.chunk.value, choice);
    s.(chunk := None, reply := Some(answer), awaiting := s.chunk.value == OpenChunk && answer == OK,
       log := s.log + [Replied(s.chunk.value, answer)])
  }

  function Next(s: State, a: Action): State
    requires Enabled(s, a)
  {
    match a
    case RuntimeStep => RuntimeNext(s)
    case SyscallFails => s.(runtime := Failed(if s.runtime in {SendOpen, SendClose} then 1 else 2))
    case ServeChunk(choice) => Serve(s, choice)
    case ServeRevoke => s.(revokePending := false, revoked := true, acked := true, log := s.log + [RevokeServed])
    case ControlStep => ControlNext(s)
  }

  /** One interleaving; a step scheduled while not enabled does nothing. */
  function Run(s: State, acts: seq<Action>): State {
    if acts == [] then s else
    var mid := Run(s, acts[..|acts| - 1]);
    if Enabled(mid, acts[|acts| - 1]) then Next(mid, acts[|acts| - 1]) else mid
  }

  // ----- The invariant -----

  /** The log up to the revocation, once the opening chunk was accepted. */
  function OpenedLog(s: State): seq<Event> {
    [Replied(OpenChunk, OK)] + if s.revoked then [RevokeServed] else []
  }

  /** A chunk is in play: untaken with `before` logged, or answered and the answer logged after it. */
  predicate InPlay(s: State, c: Chunk, before: seq<Event>) {
    if s.reply.Some? then s.chunk.None? && s.log == before + [Replied(c, s.reply.value)]
    else s.chunk == Some(c) && s.log == before
  }

  predicate ControlIdle(s: State) {
    s.control == AwaitRequest && !s.revoked && !s.revokeRequested && !s.revokePending && !s.acked && !s.done
  }

  /** `grant-control`'s flags follow its own program, and a revocation is what an acknowledgement means. */
  predicate ControlBusy(s: State) {
    && (s.revokeRequested <==> s.control == AwaitRequest)
    && (s.control == AwaitAck ==> s.revokePending != s.acked)
    && (s.revokePending || s.acked ==> s.control == AwaitAck)
    && (s.revoked <==> s.acked || s.control in {SignalDone, Finished})
  }

  const RevokedLog := [Replied(OpenChunk, OK), RevokeServed]

  /** Quiet: nothing of the runtime's is in the frame. */
  predicate Quiet(s: State) {
    s.chunk.None? && s.reply.None?
  }

  ghost predicate Refuses(s: State) {
    RefusesRevoked(s.service)
  }

  /** The log when the second probe has been given `answers`. */
  function ProbedLog(answers: seq<nat>): seq<Event> {
    RevokedLog + [Replied(CloseChunk, ACCESS)]
    + seq(|answers|, i requires 0 <= i < |answers| => Replied(ProbeRequest(i), answers[i]))
  }

  lemma ProbedLogGrows(answers: seq<nat>, status: nat)
    ensures ProbedLog(answers + [status]) == ProbedLog(answers) + [Replied(ProbeRequest(|answers|), status)]
  {
  }

  function Refusals(n: nat): seq<nat> {
    seq(n, i => ACCESS)
  }

  /** How the guest ends when every request from the n-th on is refused. */
  function Verdict(g: Guest, n: nat): Move
    decreases if n <= g.fuel then g.fuel - n else 0
  {
    var move := MoveOf(g, Refusals(n));
    if move.Ask? then Verdict(g, n + 1) else move
  }

  /** The guest asked for each of its answers, and if the service refuses it, it was refused each time. */
  ghost predicate Asked(s: State, answers: seq<nat>) {
    && |answers| <= s.guest.fuel
    && (forall i :: 0 <= i < |answers| ==> MoveOf(s.guest, answers[..i]).Ask?)
    && (Refuses(s) ==> answers == Refusals(|answers|) && Verdict(s.guest, |answers|) == Verdict(s.guest, 0))
  }

  lemma AskedOnce(s: State, answers: seq<nat>, status: nat)
    requires Asked(s, answers) && MoveOf(s.guest, answers).Ask? && (Refuses(s) ==> status == ACCESS)
    ensures Asked(s, answers + [status])
  {
    var more := answers + [status];
    forall i | 0 <= i < |more| ensures MoveOf(s.guest, more[..i]).Ask? {
      assert more[..i] == answers[..i];
      assert answers[..|answers|] == answers;
    }
    if Refuses(s) {
      assert more == Refusals(|more|);
    }
  }

  /** What each point of the runtime's program implies about everyone else. */
  ghost predicate Phase(s: State) {
    match s.runtime
    case SendOpen => ControlIdle(s) && !s.awaiting && Quiet(s) && s.log == []
    case AwaitOpen => ControlIdle(s) && InPlay(s, OpenChunk, []) && (s.awaiting <==> s.reply == Some(OK))
    case SignalRevoke => ControlIdle(s) && s.awaiting && Quiet(s) && s.log == [Replied(OpenChunk, OK)]
    case AwaitDone =>
      ControlBusy(s) && (s.done <==> s.control == Finished) && s.awaiting && Quiet(s) && s.log == OpenedLog(s)
    case SendClose =>
      ControlBusy(s) && s.control == Finished && s.awaiting && Quiet(s) && s.log == RevokedLog
    case AwaitClose =>
      && ControlBusy(s) && s.control == Finished && InPlay(s, CloseChunk, RevokedLog)
      && (Refuses(s) && s.reply.Some? ==> s.reply == Some(ACCESS))
    case Probing(answers) =>
      ControlBusy(s) && s.control == Finished && Quiet(s) && s.log == ProbedLog(answers) && Asked(s, answers)
    case AwaitProbe(answers) =>
      && ControlBusy(s) && s.control == Finished && InPlay(s, ProbeRequest(|answers|), ProbedLog(answers))
      && Asked(s, answers) && MoveOf(s.guest, answers).Ask?
      && (Refuses(s) && s.reply.Some? ==> s.reply == Some(ACCESS))
    case Passed(answers) =>
      && ControlBusy(s) && s.control == Finished && Quiet(s) && s.log == ProbedLog(answers)
      && Asked(s, answers) && MoveOf(s.guest, answers) == Report(true)
    case Trapped =>
      && ControlBusy(s) && s.control == Finished && Quiet(s) && (Refuses(s) ==> Verdict(s.guest, 0) == Traps)
    case Failed(detail) =>
      Quiet(s) && (Refuses(s) ==> detail in {1, 2} || (detail == 3 && Verdict(s.guest, 0) == Report(false)))
  }

  predicate RevokedFirst(s: State) {
    s.revoked && !s.service.servesWhileAwaiting ==> s.runtime.Failed?
  }

  /** After the revocation is served, every answer is a refusal. */
  ghost predicate RefusedAfterRevoke(log: seq<Event>) {
    forall i, j :: 0 <= i < j < |log| && log[i] == RevokeServed && log[j].Replied? ==> log[j].status == ACCESS
  }

  ghost predicate NoOkAfterRevoke(s: State) {
    && (s.revoked <==> RevokeServed in s.log)
    && (Refuses(s) ==> RefusedAfterRevoke(s.log))
  }

  ghost predicate Inv(s: State) {
    Phase(s) && RevokedFirst(s) && NoOkAfterRevoke(s)
  }

  lemma RuntimeKeepsPhase(s: State)
    requires Phase(s) && RevokedFirst(s) && RuntimeReady(s)
    ensures Phase(RuntimeNext(s)) && RevokedFirst(RuntimeNext(s))
  {
    hide Asked, ProbedLog, MoveOf, Verdict, RefusesRevoked;
    if s.runtime.Probing? || s.runtime.AwaitProbe? || s.runtime.AwaitClose? {
      ProbeKeepsPhase(s);
    }
  }

  /** The second probe, from its start to its end. */
  lemma ProbeKeepsPhase(s: State)
    requires Phase(s) && RevokedFirst(s) && RuntimeReady(s)
    requires s.runtime.Probing? || s.runtime.AwaitProbe? || s.runtime.AwaitClose?
    ensures Phase(RuntimeNext(s)) && RevokedFirst(RuntimeNext(s))
  {
    match s.runtime
    case AwaitClose => assert ProbedLog([]) == RevokedLog + [Replied(CloseChunk, ACCESS)];
    case AwaitProbe(answers) =>
      ProbedLogGrows(answers, s.reply.value);
      AskedOnce(s, answers, s.reply.value);
      assert Asked(RuntimeNext(s), answers + [s.reply.value]);
    case Probing(answers) =>
      assert Asked(RuntimeNext(s), answers);
  }

  lemma FailureKeepsPhase(s: State)
    requires Phase(s) && RevokedFirst(s) && Enabled(s, SyscallFails)
    ensures Phase(Next(s, SyscallFails)) && RevokedFirst(Next(s, SyscallFails))
  {
  }

  lemma ServeKeepsPhase(s: State, choice: nat)
    requires Phase(s) && RevokedFirst(s) && s.chunk.Some?
    ensures Phase(Serve(s, choice)) && RevokedFirst(Serve(s, choice))
  {
  }

  lemma RevokeKeepsPhase(s: State)
    requires Phase(s) && RevokedFirst(s) && Enabled(s, ServeRevoke)
    ensures Phase(Next(s, ServeRevoke)) && RevokedFirst(Next(s, ServeRevoke))
  {
  }

  lemma ControlKeepsPhase(s: State)
    requires Phase(s) && RevokedFirst(s) && ControlReady(s)
    ensures Phase(ControlNext(s)) && RevokedFirst(ControlNext(s))
  {
  }

  lemma NextKeepsPhase(s: State, a: Action)
    requires Phase(s) && RevokedFirst(s) && Enabled(s, a)
    ensures Phase(Next(s, a)) && RevokedFirst(Next(s, a))
  {
    hide Phase, RevokedFirst, RuntimeNext, ControlNext, Serve;
    match a
    case RuntimeStep => RuntimeKeepsPhase(s);
    case SyscallFails => FailureKeepsPhase(s);
    case ServeChunk(choice) => ServeKeepsPhase(s, choice);
    case ServeRevoke => RevokeKeepsPhase(s);
    case ControlStep => ControlKeepsPhase(s);
  }

  ghost predicate LogKept(s: State, s': State) {
    s'.log == s.log && s'.revoked == s.revoked && s'.service == s.service && s'.guest == s.guest
  }

  lemma ControlLogsNothing(s: State)
    requires ControlReady(s)
    ensures LogKept(s, ControlNext(s))
  {
  }

  lemma NextKeepsOrder(s: State, a: Action)
    requires NoOkAfterRevoke(s) && Enabled(s, a)
    ensures NoOkAfterRevoke(Next(s, a)) && Next(s, a).service == s.service && Next(s, a).guest == s.guest
  {
    hide Goes, Sent, ControlNext, RefusedAfterRevoke;
    match a
    case RuntimeStep =>
    case ControlStep => ControlLogsNothing(s);
    case SyscallFails =>
    case ServeChunk(_) =>
      if Refuses(s) {
        LogGrows(s.log, Next(s, a).log[|s.log|]);
      }
    case ServeRevoke => LogGrows(s.log, RevokeServed);
  }

  lemma LogGrows(log: seq<Event>, e: Event)
    requires RevokeServed in log && e.Replied? ==> e.status == ACCESS
    ensures RefusedAfterRevoke(log) ==> RefusedAfterRevoke(log + [e])
  {
  }

  lemma {:induction false} RunKeepsInv(service: Service, guest: Guest, acts: seq<Action>)
    ensures var s := Run(Start(service, guest), acts); Inv(s) && s.service == service && s.guest == guest
  {
    hide Phase, RevokedFirst, NoOkAfterRevoke, Next, Enabled, Start;
    if acts == [] {
      StartInv(service, guest);
    } else {
      RunKeepsInv(service, guest, acts[..|acts| - 1]);
      var mid := Run(Start(service, guest), acts[..|acts| - 1]);
      if Enabled(mid, acts[|acts| - 1]) {
        NextKeepsPhase(mid, acts[|acts| - 1]);
        NextKeepsOrder(mid, acts[|acts| - 1]);
      }
    }
  }

  lemma StartInv(service: Service, guest: Guest)
    ensures var s := Start(service, guest); Inv(s) && s.service == service && s.guest == guest
  {
  }

  // ----- Safety -----

  /** The runtime passes only on runs where the service, whatever it promised, did exactly this: accept the
      opening chunk, serve the revocation, refuse the open request, and answer the second probe's requests,
      as many as the guest made, so that the guest's report came out a refusal. */
  lemma PassedMeansObserved(service: Service, guest: Guest, acts: seq<Action>)
    requires Run(Start(service, guest), acts).runtime.Passed?
    ensures var s := Run(Start(service, guest), acts);
            && s.log == ProbedLog(s.runtime.answers)
            && MoveOf(guest, s.runtime.answers) == Report(true)
            && forall i :: 0 <= i < |s.runtime.answers| ==> MoveOf(guest, s.runtime.answers[..i]).Ask?
  {
    RunKeepsInv(service, guest, acts);
  }

  /** With a service that refuses a revoked badge, no interleaving answers anything but `ACCESS` once the
      revocation is served. */
  lemma NothingAfterTheRevocation(service: Service, guest: Guest, acts: seq<Action>, i: nat, j: nat)
    requires RefusesRevoked(service)
    requires var log := Run(Start(service, guest), acts).log; i < j < |log| && log[i] == RevokeServed && log[j].Replied?
    ensures Run(Start(service, guest), acts).log[j].status == ACCESS
  {
    RunKeepsInv(service, guest, acts);
  }

  /** The only failures left to the runtime, its own system calls apart: the request was not accepted, or the
      guest, refused throughout, reports something else. */
  predicate FailsOnlyAtOpening(s: State) {
    s.runtime.Failed? ==>
      || (s.log != [] && s.log[0].Replied? && s.log[0].to == OpenChunk && s.log[0].status != OK)
      || (s.log != [] && Verdict(s.guest, 0) == Report(false))
  }

  lemma NextFailsOnlyAtOpening(s: State, a: Action)
    requires Phase(s) && Refuses(s) && FailsOnlyAtOpening(s) && Enabled(s, a) && a != SyscallFails
    ensures FailsOnlyAtOpening(Next(s, a))
  {
    hide ProbedLog, Verdict, MoveOf;
    if a.ControlStep? {
      ControlLogsNothing(s);
      ControlKeepsRuntime(s);
    } else if s.runtime.Probing? && a.RuntimeStep? {
      ReportsFalse(s);
    }
  }

  lemma ReportsFalse(s: State)
    requires Phase(s) && Refuses(s) && s.runtime.Probing?
    ensures s.log != []
    ensures var move := MoveOf(s.guest, s.runtime.answers); move.Ask? || move == Verdict(s.guest, 0)
  {
    assert s.runtime.answers == Refusals(|s.runtime.answers|);
  }

  lemma ControlKeepsRuntime(s: State)
    requires ControlReady(s)
    ensures ControlNext(s).runtime == s.runtime
  {
  }

  lemma {:induction false} RunFailsOnlyAtOpening(service: Service, guest: Guest, acts: seq<Action>)
    requires RefusesRevoked(service) && SyscallFails !in acts
    ensures FailsOnlyAtOpening(Run(Start(service, guest), acts))
  {
    hide Phase, RevokedFirst, NoOkAfterRevoke, FailsOnlyAtOpening, Next, Enabled, Start;
    if acts == [] {
      assert FailsOnlyAtOpening(Start(service, guest)) by {
        StartInv(service, guest);
        StartsUnfailed(service, guest);
      }
    } else {
      var front := acts[..|acts| - 1];
      RunFailsOnlyAtOpening(service, guest, front);
      RunKeepsInv(service, guest, front);
      var mid := Run(Start(service, guest), front);
      assert acts[|acts| - 1] in acts;
      if Enabled(mid, acts[|acts| - 1]) {
        NextFailsOnlyAtOpening(mid, acts[|acts| - 1]);
      }
    }
  }

  lemma StartsUnfailed(service: Service, guest: Guest)
    ensures FailsOnlyAtOpening(Start(service, guest))
  {
  }

  // ----- Progress -----

  /** Requests the guest still has fuel for. */
  function FuelLeft(g: Guest, answers: seq<nat>): nat {
    if |answers| <= g.fuel then g.fuel - |answers| else 0
  }

  function RuntimeRank(g: Guest, r: Runtime): nat {
    match r
    case SendOpen => 2 * g.fuel + 9
    case AwaitOpen => 2 * g.fuel + 8
    case SignalRevoke => 2 * g.fuel + 7
    case AwaitDone => 2 * g.fuel + 6
    case SendClose => 2 * g.fuel + 5
    case AwaitClose => 2 * g.fuel + 4
    case Probing(answers) => 2 * FuelLeft(g, answers) + 3
    case AwaitProbe(answers) => 2 * FuelLeft(g, answers) + 2
    case Passed(_) | Trapped | Failed(_) => 0
  }

  function ControlRank(c: Control): nat {
    match c
    case AwaitRequest => 4
    case SendRevoke => 3
    case AwaitAck => 2
    case SignalDone => 1
    case Finished => 0
  }

  /** Work left; every step of any party uses some up. */
  function Measure(s: State): nat {
    4 * RuntimeRank(s.guest, s.runtime) + 3 * ControlRank(s.control)
    + (if s.chunk.Some? then 2 else if s.reply.Some? then 1 else 0)
    + (if s.revokePending then 1 else 0)
  }

  /** How many of the scheduled steps were really taken. */
  function Taken(s: State, acts: seq<Action>): nat {
    if acts == [] then 0
    else Taken(s, acts[..|acts| - 1]) + if Enabled(Run(s, acts[..|acts| - 1]), acts[|acts| - 1]) then 1 else 0
  }

  lemma RuntimeAdvances(s: State)
    requires RuntimeReady(s) && InFuel(s)
    ensures RuntimeRank(s.guest, Goes(s)) < RuntimeRank(s.guest, s.runtime)
  {
  }

  /** A request in flight was one the guest had fuel for. */
  predicate InFuel(s: State) {
    s.runtime.AwaitProbe? ==> |s.runtime.answers| < s.guest.fuel
  }

  lemma PhaseInFuel(s: State)
    requires Phase(s)
    ensures InFuel(s)
  {
  }

  lemma ControlAdvances(s: State)
    requires ControlReady(s)
    ensures Measure(ControlNext(s)) < Measure(s)
  {
  }

  lemma StepUsesMeasure(s: State, a: Action)
    requires Enabled(s, a) && InFuel(s)
    ensures Measure(Next(s, a)) < Measure(s)
  {
    hide Goes, Sent, ControlNext;
    match a
    case RuntimeStep => RuntimeAdvances(s);
    case ControlStep => ControlAdvances(s);
    case _ =>
  }

  /** Every run ends: whatever the schedule, the parties together take at most 48 steps, and eight more for
      each request the guest has fuel for. */
  lemma {:induction false} RunsAreBounded(service: Service, guest: Guest, acts: seq<Action>)
    ensures Taken(Start(service, guest), acts) + Measure(Run(Start(service, guest), acts)) <= 8 * guest.fuel + 48
  {
    if acts == [] {
      assert Measure(Start(service, guest)) == 8 * guest.fuel + 48;
    } else {
      RunsAreBounded(service, guest, acts[..|acts| - 1]);
      RunKeepsInv(service, guest, acts[..|acts| - 1]);
      var mid := Run(Start(service, guest), acts[..|acts| - 1]);
      hide Measure, Enabled, Next, Phase;
      PhaseInFuel(mid);
      if Enabled(mid, acts[|acts| - 1]) {
        StepUsesMeasure(mid, acts[|acts| - 1]);
      }
    }
  }

  predicate Ended(s: State) {
    s.runtime.Passed? || s.runtime.Trapped? || s.runtime.Failed?
  }

  /** No party can move, short of one of the runtime's own system calls failing. */
  ghost predicate Stuck(s: State) {
    !Ended(s) && forall a :: Enabled(s, a) ==> a == SyscallFails
  }

  /** With a service that serves `REVOKE` while it waits for a chunk, nobody is ever stuck; with the
      bound on steps, every run that is continued ends. */
  lemma NeverStuck(service: Service, guest: Guest, acts: seq<Action>)
    requires service.servesWhileAwaiting
    ensures !Stuck(Run(Start(service, guest), acts))
  {
    RunKeepsInv(service, guest, acts);
    var s := Run(Start(service, guest), acts);
    if s.chunk.Some? {
      assert Enabled(s, ServeChunk(OK));
    } else if !Ended(s) {
      assert Enabled(s, RuntimeStep) || Enabled(s, ControlStep) || Enabled(s, ServeRevoke);
    }
  }

  /** No party can take another step, a failing system call of the runtime's own apart. */
  ghost predicate AtRest(s: State) {
    forall a :: Enabled(s, a) ==> a == SyscallFails
  }

  /** The two promises together are enough: if no system call fails, every run that can go no further, and
      every run does get there, has passed exactly when the service accepted the request and the guest, its
      every request refused, reports a refusal. */
  lemma KeptPromisesPass(service: Service, guest: Guest, acts: seq<Action>)
    requires RefusesRevoked(service) && service.servesWhileAwaiting && SyscallFails !in acts
    requires AtRest(Run(Start(service, guest), acts))
    ensures var s := Run(Start(service, guest), acts);
            && s.log != []
            && (s.runtime.Passed? <==> s.log[0] == Replied(OpenChunk, OK) && Verdict(guest, 0) == Report(true))
  {
    hide Enabled, Next, Start;
    NeverStuck(service, guest, acts);
    RunFailsOnlyAtOpening(service, guest, acts);
    RunKeepsInv(service, guest, acts);
    EndsAsRefused(Run(Start(service, guest), acts));
  }

  lemma EndsAsRefused(s: State)
    requires Phase(s) && Refuses(s)
    ensures s.runtime.Passed? ==>
              s.log != [] && s.log[0] == Replied(OpenChunk, OK) && Verdict(s.guest, 0) == Report(true)
    ensures s.runtime.Trapped? ==> Verdict(s.guest, 0) == Traps
  {
    if s.runtime.Passed? {
      assert s.runtime.answers == Refusals(|s.runtime.answers|);
    }
  }

  /** Extends a schedule by one step that is taken. */
  lemma Then(s: State, acts: seq<Action>, a: Action) returns (more: seq<Action>)
    requires Enabled(Run(s, acts), a)
    ensures more == acts + [a] && Run(s, more) == Next(Run(s, acts), a)
  {
    more := acts + [a];
    assert more[..|acts|] == acts;
  }

  /** The service may give `chunk` this status, before or after the revocation. */
  ghost predicate MayGive(service: Service, revoked: bool, chunk: Chunk, status: nat) {
    exists choice :: service.decide(revoked, chunk, choice) == status
  }

  lemma ServeWith(s: State, acts: seq<Action>, chunk: Chunk, status: nat) returns (more: seq<Action>)
    requires Run(s, acts).chunk == Some(chunk) && MayGive(Run(s, acts).service, Run(s, acts).revoked, chunk, status)
    ensures var t := Run(s, acts);
            Run(s, more) == t.(chunk := None, reply := Some(status), awaiting := chunk == OpenChunk && status == OK,
                               log := t.log + [Replied(chunk, status)])
  {
    var t := Run(s, acts);
    var choice :| t.service.decide(t.revoked, chunk, choice) == status;
    more := Then(s, acts, ServeChunk(choice));
  }

  /** A schedule that brings the revocation as far as the service's next move. */
  lemma UpToRevoke(service: Service, guest: Guest) returns (acts: seq<Action>)
    requires MayGive(service, false, OpenChunk, OK)
    ensures Run(Start(service, guest), acts) ==
            State(service, guest, AwaitDone, AwaitAck, true, false, None, None, false, true, false, false,
                  [Replied(OpenChunk, OK)])
  {
    var s := Start(service, guest);
    acts := Then(s, [], RuntimeStep);
    acts := ServeWith(s, acts, OpenChunk, OK);
    acts := Then(s, acts, RuntimeStep);
    acts := Then(s, acts, RuntimeStep);
    acts := Then(s, acts, ControlStep);
    acts := Then(s, acts, ControlStep);
  }

  /** The service may answer the guest's requests so that it reports a refusal. */
  ghost predicate Leads(service: Service, guest: Guest, answers: seq<nat>) {
    && MoveOf(guest, answers) == Report(true)
    && forall i :: 0 <= i < |answers| ==>
         MoveOf(guest, answers[..i]).Ask? && MayGive(service, true, ProbeRequest(i), answers[i])
  }

  /** The service can take its part in a run that passes: accept the request, serve the revocation in
      time, refuse, and have the guest report it. */
  ghost predicate CanPass(service: Service, guest: Guest) {
    && service.servesWhileAwaiting
    && MayGive(service, false, OpenChunk, OK)
    && MayGive(service, true, CloseChunk, ACCESS)
    && exists answers :: Leads(service, guest, answers)
  }

  function ProbingState(service: Service, guest: Guest, answers: seq<nat>): State {
    State(service, guest, Probing(answers), Finished, false, true, None, None, false, false, false, false,
          ProbedLog(answers))
  }

  /** A schedule that brings the second probe to its n-th answer. */
  lemma {:induction false} UpToProbing(service: Service, guest: Guest, answers: seq<nat>, n: nat)
    returns (acts: seq<Action>)
    requires service.servesWhileAwaiting
    requires MayGive(service, false, OpenChunk, OK) && MayGive(service, true, CloseChunk, ACCESS)
    requires Leads(service, guest, answers) && n <= |answers|
    ensures Run(Start(service, guest), acts) == ProbingState(service, guest, answers[..n])
  {
    var s := Start(service, guest);
    hide MayGive, MoveOf, Run, Start;
    if n == 0 {
      acts := UpToRevoke(service, guest);
      acts := Then(s, acts, ServeRevoke);
      acts := Then(s, acts, ControlStep);
      acts := Then(s, acts, ControlStep);
      acts := Then(s, acts, RuntimeStep);
      acts := Then(s, acts, RuntimeStep);
      acts := ServeWith(s, acts, CloseChunk, ACCESS);
      acts := Then(s, acts, RuntimeStep);
      assert answers[..0] == [];
    } else {
      acts := UpToProbing(service, guest, answers, n - 1);
      acts := Then(s, acts, RuntimeStep);
      acts := ServeWith(s, acts, ProbeRequest(n - 1), answers[n - 1]);
      acts := Then(s, acts, RuntimeStep);
      ProbedLogGrows(answers[..n - 1], answers[n - 1]);
      assert answers[..n] == answers[..n - 1] + [answers[n - 1]];
    }
  }

  lemma UpToPassed(service: Service, guest: Guest) returns (acts: seq<Action>)
    requires CanPass(service, guest)
    ensures Run(Start(service, guest), acts).runtime.Passed?
  {
    var answers :| Leads(service, guest, answers);
    acts := UpToProbing(service, guest, answers, |answers|);
    assert answers[..|answers|] == answers;
    acts := Then(Start(service, guest), acts, RuntimeStep);
  }

  /** Every answer in the log is one the service may give at that point. */
  ghost predicate GivenLog(service: Service, log: seq<Event>) {
    forall i :: 0 <= i < |log| && log[i].Replied? ==>
      MayGive(service, RevokeServed in log[..i], log[i].to, log[i].status)
  }

  lemma GivenGrows(service: Service, log: seq<Event>, e: Event)
    requires GivenLog(service, log)
    requires e.Replied? ==> MayGive(service, RevokeServed in log, e.to, e.status)
    ensures GivenLog(service, log + [e])
  {
    hide MayGive;
    forall i | 0 <= i < |log + [e]| && (log + [e])[i].Replied?
      ensures MayGive(service, RevokeServed in (log + [e])[..i], (log + [e])[i].to, (log + [e])[i].status)
    {
      assert (log + [e])[..i] == log[..i];
      assert log[..|log|] == log;
    }
  }

  lemma NextGiven(s: State, a: Action)
    requires NoOkAfterRevoke(s) && GivenLog(s.service, s.log) && Enabled(s, a)
    ensures GivenLog(s.service, Next(s, a).log)
  {
    hide Goes, Sent, ControlNext, RefusedAfterRevoke, GivenLog;
    match a
    case RuntimeStep =>
    case ControlStep => ControlLogsNothing(s);
    case SyscallFails =>
    case ServeChunk(choice) =>
      assert s.service.decide(s.revoked, s.chunk.value, choice) == Serve(s, choice).reply.value;
      GivenGrows(s.service, s.log, Replied(s.chunk.value, Serve(s, choice).reply.value));
    case ServeRevoke => GivenGrows(s.service, s.log, RevokeServed);
  }

  lemma {:induction false} RunGiven(service: Service, guest: Guest, acts: seq<Action>)
    ensures GivenLog(service, Run(Start(service, guest), acts).log)
  {
    hide Phase, RevokedFirst, NoOkAfterRevoke, Next, Enabled, GivenLog;
    if acts == [] {
      NothingGiven(service);
    } else {
      var front := acts[..|acts| - 1];
      RunGiven(service, guest, front);
      RunKeepsInv(service, guest, front);
      if Enabled(Run(Start(service, guest), front), acts[|acts| - 1]) {
        NextGiven(Run(Start(service, guest), front), acts[|acts| - 1]);
      }
    }
  }

  lemma NothingGiven(service: Service)
    ensures GivenLog(service, [])
  {
  }

  lemma PassedCould(service: Service, guest: Guest, acts: seq<Action>)
    requires Run(Start(service, guest), acts).runtime.Passed?
    ensures CanPass(service, guest)
  {
    hide Run, Start, MayGive, MoveOf;
    RunKeepsInv(service, guest, acts);
    PassedWasRevoked(Run(Start(service, guest), acts));
    PassedMeansObserved(service, guest, acts);
    RunGiven(service, guest, acts);
    var s := Run(Start(service, guest), acts);
    var answers := s.runtime.answers;
    assert s.log[0] == Replied(OpenChunk, OK) && s.log[1] == RevokeServed && s.log[2] == Replied(CloseChunk, ACCESS);
    assert RevokeServed !in s.log[..0] && s.log[1] in s.log[..2];
    forall i | 0 <= i < |answers| ensures MayGive(service, true, ProbeRequest(i), answers[i]) {
      assert s.log[3 + i] == Replied(ProbeRequest(i), answers[i]) && s.log[1] in s.log[..3 + i];
    }
    assert Leads(service, guest, answers);
  }

  lemma PassedWasRevoked(s: State)
    requires Inv(s) && s.runtime.Passed?
    ensures s.service.servesWhileAwaiting
  {
  }

  lemma StuckCould(service: Service, guest: Guest, acts: seq<Action>)
    requires Stuck(Run(Start(service, guest), acts))
    ensures !service.servesWhileAwaiting && MayGive(service, false, OpenChunk, OK)
  {
    hide Run, Start, MayGive;
    if service.servesWhileAwaiting {
      NeverStuck(service, guest, acts);
    }
    RunKeepsInv(service, guest, acts);
    RunGiven(service, guest, acts);
    var s := Run(Start(service, guest), acts);
    StuckInTheWait(s);
    assert s.log[0] == Replied(OpenChunk, OK) && RevokeServed !in s.log[..0];
  }

  lemma StuckInTheWait(s: State)
    requires Inv(s) && Stuck(s)
    ensures s.runtime == AwaitDone && s.log != [] && s.log[0] == Replied(OpenChunk, OK)
  {
    assert s.chunk.Some? ==> Enabled(s, ServeChunk(0));
    assert !Enabled(s, RuntimeStep) && !Enabled(s, ControlStep) && !Enabled(s, ServeRevoke);
  }

  /** A run can pass exactly when the service accepts, serves `REVOKE` while it waits and then refuses so that
      the guest reports it; a run can get stuck exactly when it accepts but does not serve `REVOKE` while it
      waits. So completing the run witnesses the promise. */
  lemma PassingWitnessesTheGuarantee(service: Service, guest: Guest)
    ensures (exists acts :: Run(Start(service, guest), acts).runtime.Passed?) <==> CanPass(service, guest)
    ensures (exists acts :: Stuck(Run(Start(service, guest), acts))) <==>
            !service.servesWhileAwaiting && MayGive(service, false, OpenChunk, OK)
  {
    hide MayGive, CanPass;
    if CanPass(service, guest) {
      var acts := UpToPassed(service, guest);
    }
    forall acts | Run(Start(service, guest), acts).runtime.Passed? ensures CanPass(service, guest) {
      PassedCould(service, guest, acts);
    }
    if !service.servesWhileAwaiting && MayGive(service, false, OpenChunk, OK) {
      var acts := UpToRevoke(service, guest);
      assert Stuck(Run(Start(service, guest), acts));
    }
    forall acts | Stuck(Run(Start(service, guest), acts))
      ensures !service.servesWhileAwaiting && MayGive(service, false, OpenChunk, OK)
    {
      StuckCould(service, guest, acts);
    }
  }
}
