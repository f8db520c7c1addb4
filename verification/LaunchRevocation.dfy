/** The launch program and the revocation exchange are one: what the program's own system calls return along
    its trace is what the runtime of some run of the exchange was told, and then the program's result is
    that run's. */
module LaunchRevocation {
  import opened Prelude
  import opened Launch
  import R = Revocation

  /** What the runtime was told by one of its system calls, a reply's status, a notification or an error, or by
      the guest's second probe, a report that reads as a refusal or does not, or a trap. */
  datatype Observation = Told(status: nat) | Notified | Reported(refused: bool) | Errored

  function Observed(s: R.State, a: R.Action): seq<Observation>
    requires R.Enabled(s, a)
  {
    match a
    case RuntimeStep =>
      (match s.runtime
       case AwaitOpen | AwaitClose => [Told(s.reply.value)]
       case SignalRevoke | AwaitDone => [Notified]
       case Probing(answers) =>
         (match R.MoveOf(s.guest, answers)
          case Ask => []
          case Report(refused) => [Reported(refused)]
          case Traps => [Errored])
       case _ => [])
    case SyscallFails => [Errored]
    case _ => []
  }

  /** Everything the runtime was told in a run, in order. */
  function Seen(s: R.State, acts: seq<R.Action>): seq<Observation> {
    if acts == [] then [] else
    var front, a := acts[..|acts| - 1], acts[|acts| - 1];
    Seen(s, front) + if R.Enabled(R.Run(s, front), a) then Observed(R.Run(s, front), a) else []
  }

  /** The k-th thing the runtime is told is what it needs to go on. */
  predicate Good(k: nat, o: Observation) {
    if k == 0 then o == Told(R.OK)
    else if k < 3 then o == Notified
    else if k == 3 then o == Told(R.ACCESS)
    else o == Reported(true)
  }

  /** The detail a k-th observation that is not good fails with. */
  function DetailOf(k: nat, o: Observation): nat {
    if k == 0 then 1
    else if k < 3 then 2
    else if k == 3 then (if o.Told? then OrBit8(o.status) else 1)
    else 3
  }

  ghost predicate AllGood(seen: seq<Observation>) {
    forall k :: 0 <= k < |seen| ==> Good(k, seen[k])
  }

  function ToldBy(r: R.Runtime): nat {
    match r
    case SendOpen | AwaitOpen => 0
    case SignalRevoke => 1
    case AwaitDone => 2
    case SendClose | AwaitClose => 3
    case Probing(_) | AwaitProbe(_) => 4
    case Passed(_) | Trapped | Failed(_) => 5
  }

  /** What the runtime has been told says where it is. */
  ghost predicate SeenBy(r: R.Runtime, seen: seq<Observation>) {
    if r.Failed? then
      && 1 <= |seen| <= 5
      && AllGood(seen[..|seen| - 1])
      && !Good(|seen| - 1, seen[|seen| - 1])
      && r.detail == DetailOf(|seen| - 1, seen[|seen| - 1])
      && (|seen| == 5 ==> seen[4] == Reported(false))
    else if r.Trapped? then |seen| == 5 && AllGood(seen[..4]) && seen[4] == Errored
    else |seen| == ToldBy(r) && AllGood(seen)
  }

  /** Told `o` where it is, the runtime goes on, fails or traps as it must. */
  predicate Follows(r: R.Runtime, o: Observation, r': R.Runtime) {
    var k := ToldBy(r);
    if k < 5 && Good(k, o) then !r'.Failed? && !r'.Trapped? && ToldBy(r') == k + 1
    else if k == 4 && o == Errored then r'.Trapped?
    else k < 5 && r' == R.Failed(DetailOf(k, o)) && (k == 4 ==> o == Reported(false))
  }

  lemma OneMoreSeen(r: R.Runtime, o: Observation, r': R.Runtime, seen: seq<Observation>)
    requires SeenBy(r, seen) && Follows(r, o, r')
    ensures SeenBy(r', seen + [o])
  {
    hide DetailOf, Good, AllGood;
    GoodGrows(seen, o);
    assert (seen + [o])[..|seen|] == seen;
  }

  lemma GoodGrows(seen: seq<Observation>, o: Observation)
    ensures AllGood(seen) && Good(|seen|, o) ==> AllGood(seen + [o])
  {
  }

  lemma NothingSeen(r: R.Runtime, r': R.Runtime, seen: seq<Observation>)
    requires SeenBy(r, seen) && !r.Failed? && !r.Trapped? && !r'.Failed? && !r'.Trapped? && ToldBy(r') == ToldBy(r)
    ensures SeenBy(r', seen + [])
  {
    assert seen + [] == seen;
  }

  lemma NextSeen(s: R.State, a: R.Action, seen: seq<Observation>)
    requires SeenBy(s.runtime, seen) && R.Enabled(s, a)
    ensures SeenBy(R.Next(s, a).runtime, seen + Observed(s, a))
  {
    hide R.Goes, R.Sent, R.ControlNext, SeenBy;
    assert seen + [] == seen;
    match a
    case RuntimeStep => RuntimeSeen(s, seen);
    case ControlStep => R.ControlKeepsRuntime(s);
    case SyscallFails => FaultSeen(s, seen);
    case _ =>
  }

  lemma RuntimeSeen(s: R.State, seen: seq<Observation>)
    requires SeenBy(s.runtime, seen) && R.RuntimeReady(s)
    ensures SeenBy(R.Goes(s), seen + Observed(s, R.RuntimeStep))
  {
    hide SeenBy, OrBit8, R.MoveOf;
    var told := Observed(s, R.RuntimeStep);
    if told == [] {
      NothingSeen(s.runtime, R.Goes(s), seen);
    } else {
      OneMoreSeen(s.runtime, told[0], R.Goes(s), seen);
      assert told == [told[0]];
    }
  }

  lemma FaultSeen(s: R.State, seen: seq<Observation>)
    requires SeenBy(s.runtime, seen) && R.Enabled(s, R.SyscallFails)
    ensures SeenBy(R.Next(s, R.SyscallFails).runtime, seen + [Errored])
  {
    hide SeenBy, OrBit8;
    OneMoreSeen(s.runtime, Errored, R.Next(s, R.SyscallFails).runtime, seen);
  }

  lemma {:induction false} RunSeen(service: R.Service, guest: R.Guest, acts: seq<R.Action>)
    ensures SeenBy(R.Run(R.Start(service, guest), acts).runtime, Seen(R.Start(service, guest), acts))
  {
    hide SeenBy, Observed, R.Next, R.Enabled;
    var s := R.Start(service, guest);
    if acts == [] {
      StartSeen(service, guest);
    } else {
      var front, a := acts[..|acts| - 1], acts[|acts| - 1];
      RunSeen(service, guest, front);
      if R.Enabled(R.Run(s, front), a) {
        NextSeen(R.Run(s, front), a, Seen(s, front));
      } else {
        assert Seen(s, front) + [] == Seen(s, front);
      }
    }
  }

  lemma StartSeen(service: R.Service, guest: R.Guest)
    ensures SeenBy(R.Start(service, guest).runtime, [])
  {
  }

  // ----- Along the program's trace -----

  const EXCHANGE: seq<Step> := REVOKING + [SecondProbe]

  ghost predicate ReplyIs(tag: Option<nat>, o: Observation) {
    if tag.None? then o == Errored else o == Told(StatusIn(tag.value))
  }

  /** After history `h`, what the world answers the k-th step of the exchange is `o`. */
  ghost predicate AnswerIs(world: World, c: ProbeChecks, h: seq<Event>, k: nat, o: Observation) {
    match k
    case 0 => ReplyIs(world.send(h, c.openOp, true), o)
    case 1 => o == if world.signal(h) then Notified else Errored
    case 2 => o == if world.wait(h) then Notified else Errored
    case 3 => ReplyIs(world.send(h, c.openOp, false), o)
    case _ =>
      (match world.probe(h)
       case None => o == Errored
       case Some(report) => o == Reported(Refused(c.refused, report)))
  }

  /** What the outcome signal says of a k-th observation that is not good. */
  function BlameOf(k: nat, o: Observation): Failure {
    if k == 4 && o == Errored then Failure(Call, 1) else Failure(Revocation, DetailOf(k, o))
  }

  /** One step of the exchange passes, or is blamed, as its observation says. */
  lemma EventAt(world: World, bytes: seq<byte>, c: ProbeChecks, t: seq<Event>, i: nat, k: nat, o: Observation)
    requires k < |EXCHANGE| && i < |t|
    requires LeftOpen(world, bytes) == Some(c.openOp)
    requires Followed(world, bytes, t, i, EXCHANGE[k]) && AnswerIs(world, c, t[..i], k, o)
    ensures Passes(c, t[i]) <==> Good(k, o)
    ensures !Passes(c, t[i]) ==> forall f :: Blames(c, t[i], f) ==> f == BlameOf(k, o)
  {
    hide Refused, Accepted, StatusIn, OrBit8, AnyVerifies, LaunchManifest, LeftOpen, AskedFor;
  }

  /** Everything up to the first report passed. */
  ghost predicate Hosted(c: ProbeChecks, before: seq<Event>, after: seq<Event>) {
    |after| >= |before| + |HOSTING| && forall i :: |before| <= i < |before| + |HOSTING| ==> Passes(c, after[i])
  }

  /** The run of the exchange is what the program met, as far as the program went. */
  ghost predicate Met(world: World, c: ProbeChecks, after: seq<Event>, base: nat, seen: seq<Observation>) {
    forall k :: 0 <= k < |seen| && base + k < |after| ==> AnswerIs(world, c, after[..base + k], k, seen[k])
  }

  ghost predicate AsSeen(c: ProbeChecks, e: Event, k: nat, o: Observation) {
    && (Passes(c, e) <==> Good(k, o))
    && (!Passes(c, e) ==> forall f :: Blames(c, e, f) ==> f == BlameOf(k, o))
  }

  lemma ExchangeAt(world: World, bytes: seq<byte>, c: ProbeChecks, before: seq<Event>, after: seq<Event>,
                   r: Option<Failure>, seen: seq<Observation>, k: nat)
    requires Ran(world, bytes, c, before, after, HOSTING + EXCHANGE, r)
    requires LeftOpen(world, bytes) == Some(c.openOp)
    requires Met(world, c, after, |before| + |HOSTING|, seen)
    requires k < |seen| && |before| + |HOSTING| + k < |after|
    ensures k < |EXCHANGE| && AsSeen(c, after[|before| + |HOSTING| + k], k, seen[k])
  {
    hide Honest, StepOf, Passes, Blames, AnswerIs, LeftOpen;
    var i := |before| + |HOSTING| + k;
    assert Followed(world, bytes, after, |before| + (|HOSTING| + k), (HOSTING + EXCHANGE)[|HOSTING| + k]);
    assert AnswerIs(world, c, after[..i], k, seen[k]);
    EventAt(world, bytes, c, after, i, k, seen[k]);
  }

  /** `run_probe` over a world whose answers are those of a finished run of the exchange returns success
      exactly when the guest was hosted, its first report passed and that run passed; when that run failed,
      it fails with that run's own detail; and when the guest trapped, so it says. */
  lemma RunProbeIsTheExchange(world: World, bytes: seq<byte>, c: ProbeChecks, before: seq<Event>, after: seq<Event>,
                              r: Option<Failure>, service: R.Service, guest: R.Guest, acts: seq<R.Action>)
    requires Ran(world, bytes, c, before, after, HOSTING + EXCHANGE, r)
    requires LeftOpen(world, bytes) == Some(c.openOp)
    requires var s := R.Start(service, guest);
             R.Ended(R.Run(s, acts)) && Met(world, c, after, |before| + |HOSTING|, Seen(s, acts))
    ensures var end := R.Run(R.Start(service, guest), acts).runtime;
            && (r.None? <==> Hosted(c, before, after) && end.Passed?)
            && (Hosted(c, before, after) && end.Failed? ==> r == Some(Failure(Revocation, end.detail)))
            && (Hosted(c, before, after) && end.Trapped? ==> r == Some(Failure(Call, 1)))
  {
    var seen := Seen(R.Start(service, guest), acts);
    RunSeen(service, guest, acts);
    var end := R.Run(R.Start(service, guest), acts).runtime;
    ResultOf(world, bytes, c, before, after, r, end, seen);
  }

  lemma ResultOf(world: World, bytes: seq<byte>, c: ProbeChecks, before: seq<Event>, after: seq<Event>,
                 r: Option<Failure>, end: R.Runtime, seen: seq<Observation>)
    requires Ran(world, bytes, c, before, after, HOSTING + EXCHANGE, r)
    requires LeftOpen(world, bytes) == Some(c.openOp)
    requires end.Passed? || end.Trapped? || end.Failed?
    requires SeenBy(end, seen) && Met(world, c, after, |before| + |HOSTING|, seen)
    ensures r.None? <==> Hosted(c, before, after) && end.Passed?
    ensures Hosted(c, before, after) && end.Failed? ==> r == Some(Failure(Revocation, end.detail))
    ensures Hosted(c, before, after) && end.Trapped? ==> r == Some(Failure(Call, 1))
  {
    hide Followed, Passes, Blames, Met, DetailOf, LeftOpen;
    var base := |before| + |HOSTING|;
    forall k | 0 <= k < |seen| && base + k < |after| ensures AsSeen(c, after[base + k], k, seen[k]) {
      ExchangeAt(world, bytes, c, before, after, r, seen, k);
    }
    if Hosted(c, before, after) && r.Some? {
      var k := |after| - 1 - base;
      assert base <= base + k == |after| - 1;
      assert k < |seen| ==> AsSeen(c, after[base + k], k, seen[k]);
    }
    if !end.Passed? {
      var m := |seen| - 1;
      assert forall k :: 0 <= k < m ==> Good(k, seen[..m][k]) && seen[k] == seen[..m][k];
      assert base + m < |after| ==> AsSeen(c, after[base + m], m, seen[m]);
    }
  }
}
