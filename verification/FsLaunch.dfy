/** One filesystem launch from end to end: the launch program, its guest on its store, the service and
    `grant-control`. */
module FsLaunch {
  import opened Prelude
  import opened Launch
  import opened FileAnswers
  import opened GuestReports
  import opened FsGuest
  import opened FsGuestRuns
  import opened LaunchRevocation
  import H = Host
  import K = Keystore
  import S = Store
  import R = Revocation
  import RS = RevocationServices

  const CHECKS := ChecksOf(ForFilesystem)

  /** The second probe of the filesystem guest, as far as a service that refuses it sees: one read, and a
      report that it was refused. */
  const SECOND_PROBE: R.Guest :=
    R.Guest((answers: seq<nat>) => if answers == [] then R.Ask else R.Report(answers[0] == R.ACCESS), 1)

  lemma SecondProbeReportsRefusal()
    ensures R.Verdict(SECOND_PROBE, 0) == R.Report(true)
  {
    assert R.Refusals(0) == [] && R.Refusals(1) == [R.ACCESS];
    assert R.Verdict(SECOND_PROBE, 1) == R.Report(true);
  }

  /** What the launch meets: the store at the far side of its channel, with the channel's badge; the room in
      its handle table; what its guest writes and how that shows an error code. */
  datatype Setting = Setting(st: S.Store, badge: nat, limit: nat, content: seq<byte>, debug: K.ErrorCode -> string)

  /** The host object the launch builds. */
  function HostIn(x: Setting, world: World, bytes: seq<byte>, granted: bool): H.HostState
    requires PlannedWiring(world, bytes) == Some(ForFilesystem)
  {
    H.New(LaunchManifest(world, bytes, granted).value, H.NoKeystore, H.RemoteFilesystem(x.st, x.badge))
  }

  /** The store as its service, which serves `REVOKE` while it waits for a chunk, with the second probe its client. */
  function ExchangeOf(st: S.Store, badge: nat): R.State {
    R.Start(RS.StoreService(st, badge, n => (S.OP_READ, []), true), SECOND_PROBE)
  }

  // ----- Where the probes lie in the trace -----

  /** The steps of a filesystem launch before the guest is hosted. */
  function Before(granted: bool): seq<Step> {
    VERIFYING + PLANNING + Granting(granted)
  }

  lemma ScriptSplits(granted: bool)
    ensures VERIFYING + (PLANNING + Serving(ForFilesystem, granted)) == Before(granted) + (HOSTING + EXCHANGE)
  {
    assert Attenuating(ForFilesystem, granted) == [];
  }

  /** A run whose first steps all pass goes on through the rest of its script. */
  lemma Tail(world: World, bytes: seq<byte>, c: ProbeChecks, t: seq<Event>, front: seq<Step>, rest: seq<Step>,
             r: Option<Failure>)
    requires Ran(world, bytes, c, [], t, front + rest, r)
    requires forall i :: 0 <= i < |t| && i < |front| ==> Passes(c, t[i])
    ensures |t| >= |front| && Ran(world, bytes, c, t[..|front|], t, rest, r)
  {
    hide Honest, StepOf, Passes, Blames;
    forall k | 0 <= k < |t| - |front| ensures Followed(world, bytes, t, |front| + k, rest[k]) {
      assert Followed(world, bytes, t, 0 + (|front| + k), (front + rest)[|front| + k]);
    }
  }

  /** Everything but the guest's reports and the exchange goes well. */
  ghost predicate OthersPass(t: seq<Event>) {
    forall i :: 0 <= i < |t| && StepOf(t[i]) != FirstProbe && StepOf(t[i]) !in EXCHANGE ==> Passes(CHECKS, t[i])
  }

  /** The reports in the trace are the guest's own, of its probes of `h` and, after the revocation, of `h2`. */
  ghost predicate ReportsAre(t: seq<Event>, x: Setting, h: H.HostState, h2: H.HostState) {
    forall i :: 0 <= i < |t| && t[i].Probed? ==> t[i].report == Some(ReportIn(x, if t[i].second then h2 else h))
  }

  ghost function ReportIn(x: Setting, h: H.HostState): string {
    ReportOf(ProbeVerdict(h, x.limit), |x.content|, x.debug)
  }

  /** The system calls of the exchange return what a run of it told the runtime. */
  ghost predicate CallsMet(world: World, t: seq<Event>, base: nat, seen: seq<Observation>) {
    forall k :: 0 <= k < |seen| && k < 4 && base + k < |t| ==> AnswerIs(world, CHECKS, t[..base + k], k, seen[k])
  }

  lemma StepAt(world: World, bytes: seq<byte>, t: seq<Event>, n: nat, r: Option<Failure>, i: nat)
    requires n <= i < |t| && i < n + |HOSTING| && Ran(world, bytes, CHECKS, t[..n], t, HOSTING + EXCHANGE, r)
    ensures StepOf(t[i]) == HOSTING[i - n]
  {
    hide Honest, StepOf, Passes, Blames;
    assert Followed(world, bytes, t, |t[..n]| + (i - n), (HOSTING + EXCHANGE)[i - n]);
  }

  /** With everything else going well, hosting ends with the first report, and passes if that report does. */
  lemma HostedIff(world: World, bytes: seq<byte>, t: seq<Event>, n: nat, r: Option<Failure>, report: string)
    requires n <= |t| && Ran(world, bytes, CHECKS, t[..n], t, HOSTING + EXCHANGE, r) && OthersPass(t)
    requires forall i :: 0 <= i < |t| && t[i].Probed? && !t[i].second ==> t[i].report == Some(report)
    ensures Hosted(CHECKS, t[..n], t) <==> Accepted(CHECKS.required, report)
  {
    hide Followed, Blames, Accepted, Refused;
    forall i | n <= i < |t| && i < n + 6 ensures Passes(CHECKS, t[i]) {
      StepAt(world, bytes, t, n, r, i);
      HostingIsNotReporting(i - n);
    }
    StepAt(world, bytes, t, n, r, n + 6);
    assert HOSTING[6] == FirstProbe;
    assert Passes(CHECKS, t[n + 6]) <==> Accepted(CHECKS.required, report);
  }

  lemma HostingIsNotReporting(k: nat)
    requires k < 6
    ensures HOSTING[k] != FirstProbe && HOSTING[k] !in EXCHANGE
  {
  }

  // ----- The second report, and the exchange -----

  /** A finished run of the exchange with a service that refuses the revoked badge, no system call failing:
      it passed exactly when the opening chunk was accepted, and a second report, if it came to one, was
      that the guest was refused. */
  lemma ExchangeEnds(service: R.Service, acts: seq<R.Action>)
    requires R.RefusesRevoked(service) && service.servesWhileAwaiting
    requires R.SyscallFails !in acts && R.AtRest(R.Run(R.Start(service, SECOND_PROBE), acts))
    ensures var s, seen := R.Run(R.Start(service, SECOND_PROBE), acts), Seen(R.Start(service, SECOND_PROBE), acts);
            && R.Ended(s) && s.log != []
            && (s.runtime.Passed? <==> s.log[0] == R.Replied(R.OpenChunk, R.OK))
            && |seen| <= 5 && (|seen| == 5 ==> seen[4] == Reported(true))
  {
    hide R.Run, R.Start, R.RefusesRevoked, Seen;
    var s := R.Run(R.Start(service, SECOND_PROBE), acts);
    SecondProbeReportsRefusal();
    R.KeptPromisesPass(service, SECOND_PROBE, acts);
    R.NeverStuck(service, SECOND_PROBE, acts);
    R.RunKeepsInv(service, SECOND_PROBE, acts);
    assert R.Refuses(s);
    R.EndsAsRefused(s);
    RunSeen(service, SECOND_PROBE, acts);
    LastSeen(s, Seen(R.Start(service, SECOND_PROBE), acts));
  }

  lemma LastSeen(s: R.State, seen: seq<Observation>)
    requires R.Ended(s) && R.Phase(s) && R.Refuses(s) && !s.runtime.Trapped?
    requires s.guest == SECOND_PROBE && SeenBy(s.runtime, seen)
    ensures |seen| <= 5 && (|seen| == 5 ==> seen[4] == Reported(true))
  {
    SecondProbeReportsRefusal();
  }

  // ----- The launch -----

  /** The guest's file. */
  const FILE := H.HostFile(0, 0, H.FilesystemService)

  /** The service's records let the guest read and write the file its badge names, which is empty, and the
      store can seal a block. */
  predicate FileReady(x: Setting) {
    Ready(H.RemoteFilesystem(x.st, x.badge), Some(FILE))
  }

  /** The second report is a refusal when the first was ok. */
  lemma SecondReportIsARefusal(x: Setting, h: H.HostState, h1: H.HostState)
    requires h.filesystem == H.RemoteFilesystem(x.st, x.badge) && S.Sound(x.st) && TellsAccess(x.debug)
    requires x.content != [] && Opened0(h, x.limit) == Some(FILE) && FileReady(x)
    requires LeftByProbe(h, h1, x.limit, x.content)
    ensures Refused(REFUSED, ReportIn(x, H.Step(h1, H.RevokeFile(x.badge)).0))
  {
    hide Refused, TellsAccess, ReportOf, Reads, Refusal, LeftByProbe, S.Sound, H.Step;
    assert SoundBackend(h.filesystem);
    var h2 := H.Step(h1, H.RevokeFile(x.badge)).0;
    AfterRevocation(h, h1, h2, x.limit, x.content, x.badge);
    SecondReport(h, h1, h2, x.limit, x.content, x.badge, x.debug);
  }

  ghost predicate Opening(s: R.State) {
    s.log != [] && s.log[0] == R.Replied(R.OpenChunk, R.OK)
  }

  /** A filesystem launch whose steps before the guest's all pass goes on to host it. */
  lemma ProbesFollow(world: World, bytes: seq<byte>, t: seq<Event>, r: Option<Failure>)
    requires FollowsScript(world, bytes, t, r) && PlannedWiring(world, bytes) == Some(ForFilesystem) && OthersPass(t)
    ensures var front := Before(Granted(t));
            |t| >= |front| && Ran(world, bytes, CHECKS, t[..|front|], t, HOSTING + EXCHANGE, r)
  {
    var front := Before(Granted(t));
    ScriptSplits(Granted(t));
    hide Honest, Passes, Blames, PlannedWiring, Before, OthersPass, Granted, Serving;
    forall i | 0 <= i < |t| && i < |front| ensures Passes(CHECKS, t[i]) {
      assert Followed(world, bytes, t, 0 + i, (front + (HOSTING + EXCHANGE))[i]);
      BeforeIsNotReporting(Granted(t), i);
      PassesUnlessReporting(t, i);
    }
    Tail(world, bytes, CHECKS, t, front, HOSTING + EXCHANGE, r);
  }

  lemma BeforeIsNotReporting(granted: bool, i: nat)
    requires i < |Before(granted)|
    ensures Before(granted)[i] != FirstProbe && Before(granted)[i] !in EXCHANGE
  {
  }

  lemma PassesUnlessReporting(t: seq<Event>, i: nat)
    requires OthersPass(t) && i < |t| && StepOf(t[i]) != FirstProbe && StepOf(t[i]) !in EXCHANGE
    ensures Passes(CHECKS, t[i])
  {
  }

  /** What the guest is granted, and finds, when the launch goes well. */
  predicate Usable(x: Setting, granted: bool) {
    granted && x.limit > 0 && FileReady(x)
  }

  /** The first report passes exactly when the file was granted and ready. */
  lemma FirstReportIs(x: Setting, world: World, bytes: seq<byte>, granted: bool)
    requires PlannedWiring(world, bytes) == Some(ForFilesystem) && TellsAccess(x.debug)
    ensures var h := HostIn(x, world, bytes, granted);
            && (Accepted(CHECKS.required, ReportIn(x, h)) <==> Usable(x, granted))
            && (Usable(x, granted) ==> Opened0(h, x.limit) == Some(FILE))
  {
    var b := H.RemoteFilesystem(x.st, x.badge);
    LaunchedVerdict(world, bytes, granted, H.NoKeystore, b, x.limit);
    hide PlannedWiring, LaunchManifest, ProbeVerdict, ReportOf, TellsAccess, Accepted, Refused, Ready, Opened0;
    TextOf(ProbeVerdict(HostIn(x, world, bytes, granted), x.limit), |x.content|, x.debug);
  }

  lemma SecondReportIs(x: Setting, world: World, bytes: seq<byte>, granted: bool, h1: H.HostState)
    requires PlannedWiring(world, bytes) == Some(ForFilesystem) && TellsAccess(x.debug)
    requires S.Sound(x.st) && x.content != [] && Usable(x, granted)
    requires LeftByProbe(HostIn(x, world, bytes, granted), h1, x.limit, x.content)
    ensures Refused(REFUSED, ReportIn(x, H.Step(h1, H.RevokeFile(x.badge)).0))
  {
    FirstReportIs(x, world, bytes, granted);
    hide LaunchManifest, PlannedWiring, TellsAccess, S.Sound, LeftByProbe;
    hide Opened0, ReportIn, H.Step, FileReady, Refused;
    SecondReportIsARefusal(x, HostIn(x, world, bytes, granted), h1);
  }

  lemma ReachedIsHosted(world: World, bytes: seq<byte>, t: seq<Event>, n: nat, r: Option<Failure>)
    requires n <= |t| && Ran(world, bytes, CHECKS, t[..n], t, HOSTING + EXCHANGE, r)
    ensures |t| > n + |HOSTING| ==> Hosted(CHECKS, t[..n], t)
  {
    hide Followed, Passes, Blames;
  }

  /** Once the guest is hosted, the second report is the one thing the exchange was told that is not already
      a system call's. */
  lemma AllMet(world: World, bytes: seq<byte>, t: seq<Event>, n: nat, r: Option<Failure>, seen: seq<Observation>,
               report: string)
    requires n <= |t| && Ran(world, bytes, CHECKS, t[..n], t, HOSTING + EXCHANGE, r)
    requires CallsMet(world, t, n + |HOSTING|, seen) && |seen| <= 5
    requires |seen| == 5 && n + |HOSTING| + 4 < |t| ==> seen[4] == Reported(true) && Refused(REFUSED, report)
    requires forall i :: 0 <= i < |t| && t[i].Probed? && t[i].second ==> t[i].report == Some(report)
    ensures Met(world, CHECKS, t, n + |HOSTING|, seen)
  {
    hide Ran, Refused, AnswerIs;
    var base := n + |HOSTING|;
    forall k | 0 <= k < |seen| && base + k < |t| ensures AnswerIs(world, CHECKS, t[..base + k], k, seen[k]) {
      if k == 4 {
        SecondAnswer(world, bytes, t, n, r, report);
      }
    }
  }

  lemma SecondAnswer(world: World, bytes: seq<byte>, t: seq<Event>, n: nat, r: Option<Failure>, report: string)
    requires n + 11 < |t| && Ran(world, bytes, CHECKS, t[..n], t, HOSTING + EXCHANGE, r) && Refused(REFUSED, report)
    requires forall i :: 0 <= i < |t| && t[i].Probed? && t[i].second ==> t[i].report == Some(report)
    ensures AnswerIs(world, CHECKS, t[..n + 11], 4, Reported(true))
  {
    hide Passes, Blames, Refused;
    assert Followed(world, bytes, t, |t[..n]| + 11, (HOSTING + EXCHANGE)[11]);
    assert StepOf(t[n + 11]) == SecondProbe;
  }

  lemma ReadIsLeftOpen(world: World, bytes: seq<byte>)
    requires PlannedWiring(world, bytes) == Some(ForFilesystem)
    ensures LeftOpen(world, bytes) == Some(OpenRead)
  {
  }

  /** The launch from the loaded code to its result. */
  lemma ProbeStage(world: World, bytes: seq<byte>, t: seq<Event>, r: Option<Failure>, n: nat, first: string,
                   second: string, st: S.Store, badge: nat, acts: seq<R.Action>)
    requires n <= |t| && Ran(world, bytes, CHECKS, t[..n], t, HOSTING + EXCHANGE, r)
    requires LeftOpen(world, bytes) == Some(OpenRead)
    requires forall i :: 0 <= i < |t| && t[i].Probed? ==> t[i].report == Some(if t[i].second then second else first)
    requires Accepted(CHECKS.required, first) ==> Refused(REFUSED, second)
    requires OthersPass(t)
    requires R.SyscallFails !in acts && R.AtRest(R.Run(ExchangeOf(st, badge), acts))
    requires CallsMet(world, t, n + |HOSTING|, Seen(ExchangeOf(st, badge), acts))
    ensures r.None? <==> Accepted(CHECKS.required, first) && Opening(R.Run(ExchangeOf(st, badge), acts))
  {
    var service := RS.StoreService(st, badge, n => (S.OP_READ, []), true);
    hide Accepted, Refused, R.RefusesRevoked, R.AtRest, R.Run, Seen, OthersPass, Ran, CallsMet, Hosted, Met, R.Start;
    hide LeftOpen;
    RS.StoreServiceRefuses(st, badge, n => (S.OP_READ, []), true);
    HostedIff(world, bytes, t, n, r, first);
    ExchangeEnds(service, acts);
    ReachedIsHosted(world, bytes, t, n, r);
    AllMet(world, bytes, t, n, r, Seen(ExchangeOf(st, badge), acts), second);
    RunProbeIsTheExchange(world, bytes, CHECKS, t[..n], t, r, service, SECOND_PROBE, acts);
  }

  /** A filesystem launch whose guest is the filesystem guest on its own store, whose exchange is a finished
      run with that store's service and `grant-control`, and where nothing else goes wrong, succeeds exactly
      when the binder granted the file, the file was ready and the service accepted the request that the
      revocation then interrupts. */
  lemma LaunchSucceedsIff(world: World, bytes: seq<byte>, t: seq<Event>, r: Option<Failure>, x: Setting,
                          h1: H.HostState, st1: S.Store, acts: seq<R.Action>)
    requires FollowsScript(world, bytes, t, r) && PlannedWiring(world, bytes) == Some(ForFilesystem)
    requires S.Sound(x.st) && TellsAccess(x.debug) && x.content != []
    requires var h := HostIn(x, world, bytes, Granted(t));
             && LeftByProbe(h, h1, x.limit, x.content) && H.StoreOf(h1.filesystem) == Some(st1)
             && ReportsAre(t, x, h, H.Step(h1, H.RevokeFile(x.badge)).0)
    requires OthersPass(t)
    requires R.SyscallFails !in acts && R.AtRest(R.Run(ExchangeOf(st1, x.badge), acts))
    requires CallsMet(world, t, |Before(Granted(t))| + |HOSTING|, Seen(ExchangeOf(st1, x.badge), acts))
    ensures r.None? <==>
              Granted(t) && x.limit > 0 && FileReady(x) && Opening(R.Run(ExchangeOf(st1, x.badge), acts))
  {
    hide FollowsScript, PlannedWiring, TellsAccess, S.Sound, LeftByProbe, FileReady, Accepted, Refused, ReportIn;
    hide Granted, R.AtRest, R.Run, Seen, OthersPass, Ran, Before, H.Step, HostIn, CallsMet;
    hide ExchangeOf, Opening, LeftOpen;
    var granted, front := Granted(t), |Before(Granted(t))|;
    var h, h2 := HostIn(x, world, bytes, granted), H.Step(h1, H.RevokeFile(x.badge)).0;
    FirstReportIs(x, world, bytes, granted);
    if Usable(x, granted) {
      SecondReportIs(x, world, bytes, granted, h1);
    }
    ProbesFollow(world, bytes, t, r);
    ReadIsLeftOpen(world, bytes);
    ProbeStage(world, bytes, t, r, front, ReportIn(x, h), ReportIn(x, h2), st1, x.badge, acts);
  }
}
