/** What holds of every launch, whatever the package, the binder, the service, the engine and the guest do. */
module LaunchRuns {
  import opened Prelude
  import opened Launch
  import H = Host
  import R = HostRuns
  import I = IpcKeystore
  import K = Keystore
  import S = Store

  // ----- Order -----

  /** Nothing of a package is parsed, deserialized or acted on before a trusted publisher's signature on
      it verified and a copy with one bit flipped did not; what is parsed and deserialized is that
      package's own manifest and code. */
  lemma VerifiedBeforeUse(world: World, bytes: seq<byte>, t: seq<Event>, r: Option<Failure>, i: nat)
    requires FollowsScript(world, bytes, t, r) && i < |t|
    requires StepOf(t[i]) !in VERIFYING
    ensures i >= 4 && world.decode(bytes).Some?
    ensures var package := world.decode(bytes).value;
            && t[2] == ForgedVerified(Tampered(package), false) && t[3] == RealVerified(package, true)
            && AnyVerifies(world, package) && !AnyVerifies(world, Tampered(package)) && package.cwasm != []
            && (t[i].Parsed? ==> t[i].manifest == package.manifest)
            && (t[i].Deserialized? ==> t[i].cwasm == package.cwasm)
  {
    var w := PlannedWiring(world, bytes);
    var script := VERIFYING + (PLANNING + Rest(w, Granted(t)));
    hide AnyVerifies, PlannedWiring, Tampered, Blames, ChecksFor, Granted, Rest;
    assert Followed(world, bytes, t, i, script[i]);
    assert Followed(world, bytes, t, 2, script[2]) && Followed(world, bytes, t, 3, script[3]);
    assert Passes(ChecksFor(w), t[2]) && Passes(ChecksFor(w), t[3]);
    EmptyCodeIsItsOwnForgery(world.decode(bytes).value);
  }

  lemma EmptyCodeIsItsOwnForgery(package: Signed)
    ensures Tampered(package) == package <==> package.cwasm == []
  {
    if package.cwasm != [] {
      var n := |package.cwasm| - 1;
      assert Tampered(package).cwasm[n] != package.cwasm[n];
    }
  }

  /** The capability system's part: a call on the destination slot fails while nothing was granted into it. */
  ghost predicate EmptySlotRefusesCalls(world: World) {
    forall h, op, more :: (forall e :: e in h ==> !IsGrant(e)) ==> world.send(h, op, more).None?
  }

  /** A run that signals success took the whole checklist in order with every check passing, on a plan
      for exactly one resource, under a granted bind: the first report passed, then a request was
      opened, the revocation signalled and awaited, the open request refused, and the second report
      was a refusal. */
  lemma SuccessMeansEverything(world: World, bytes: seq<byte>, t: seq<Event>)
    requires FollowsScript(world, bytes, t, None) && EmptySlotRefusesCalls(world)
    ensures PlannedWiring(world, bytes).Some? && Granted(t)
    ensures var w := PlannedWiring(world, bytes).value;
            var script := VERIFYING + (PLANNING + Serving(w, true));
            && |t| == |script|
            && (forall k :: 0 <= k < |t| ==> StepOf(t[k]) == script[k] && Passes(ChecksOf(w), t[k]))
            && Ending(ChecksOf(w), t)
  {
    var w := PlannedWiring(world, bytes);
    PlanIsWired(world, bytes, t);
    OpenNeedsGrant(world, bytes, t);
    hide AnyVerifies, PlannedWiring, Blames, Passes, Honest, Granted;
    var script := VERIFYING + (PLANNING + Serving(w.value, true));
    forall k | 0 <= k < |t| ensures StepOf(t[k]) == script[k] {
      assert Followed(world, bytes, t, k, script[k]);
    }
    EndingFollows(ChecksOf(w.value), t, w.value);
  }

  /** The last six events of a run that signals success. */
  ghost predicate Ending(c: ProbeChecks, t: seq<Event>) {
    var n := |t|;
    && n >= 6
    && t[n - 6].Probed? && t[n - 6].report.Some? && Accepted(c.required, t[n - 6].report.value)
    && t[n - 5].ChunkSent? && t[n - 5].tag.Some? && StatusIn(t[n - 5].tag.value) == K.STATUS_OK
    && t[n - 4] == RevokeSignalled(true)
    && t[n - 3] == RevokeAwaited(true)
    && t[n - 2].ChunkSent? && t[n - 2].tag.Some? && StatusIn(t[n - 2].tag.value) == K.STATUS_ACCESS
    && t[n - 1].Probed? && t[n - 1].report.Some? && Refused(c.refused, t[n - 1].report.value)
  }

  lemma EndingFollows(c: ProbeChecks, t: seq<Event>, w: Wiring)
    requires var script := VERIFYING + (PLANNING + Serving(w, true));
             |t| == |script| && forall k :: 0 <= k < |t| ==> StepOf(t[k]) == script[k] && Passes(c, t[k])
    ensures Ending(c, t)
  {
    var script := VERIFYING + (PLANNING + Serving(w, true));
    var n := |t|;
    var last := [FirstProbe] + REVOKING + [SecondProbe];
    assert script[n - 6..] == last;
    forall j | n - 6 <= j < n ensures StepOf(t[j]) == last[j - (n - 6)] && Passes(c, t[j]) {
      assert script[j] == script[n - 6..][j - (n - 6)];
    }
    hide Accepted, Refused, Serving, StatusIn, StepOf, Passes;
    assert StepOf(t[n - 6]) == FirstProbe && StepOf(t[n - 5]) == OpenChunk && StepOf(t[n - 4]) == SignalRevoke;
    assert StepOf(t[n - 3]) == AwaitRevoke && StepOf(t[n - 2]) == CloseChunk && StepOf(t[n - 1]) == SecondProbe;
    EndingOf(c, t);
  }

  lemma EndingOf(c: ProbeChecks, t: seq<Event>)
    requires |t| >= 6 && forall k :: |t| - 6 <= k < |t| ==> Passes(c, t[k])
    requires StepOf(t[|t| - 6]) == FirstProbe && StepOf(t[|t| - 5]) == OpenChunk && StepOf(t[|t| - 4]) == SignalRevoke
    requires StepOf(t[|t| - 3]) == AwaitRevoke && StepOf(t[|t| - 2]) == CloseChunk && StepOf(t[|t| - 1]) == SecondProbe
    ensures Ending(c, t)
  {
    hide Accepted, Refused, StatusIn;
  }

  lemma PlanIsWired(world: World, bytes: seq<byte>, t: seq<Event>)
    requires FollowsScript(world, bytes, t, None)
    ensures PlannedWiring(world, bytes).Some?
  {
    var w := PlannedWiring(world, bytes);
    var script := VERIFYING + (PLANNING + Rest(w, Granted(t)));
    assert Followed(world, bytes, t, 5, script[5]);
    assert script[5] == CheckPlan;
    assert Passes(ChecksFor(w), t[5]);
  }

  lemma OpenNeedsGrant(world: World, bytes: seq<byte>, t: seq<Event>)
    requires FollowsScript(world, bytes, t, None) && EmptySlotRefusesCalls(world)
    requires PlannedWiring(world, bytes).Some?
    ensures Granted(t)
  {
    hide AnyVerifies, PlannedWiring, Serving, Blames, Accepted, Refused, WiringOf, Tampered, LaunchManifest, StatusIn;
    var w := PlannedWiring(world, bytes).value;
    if !Granted(t) {
      var script := VERIFYING + (PLANNING + Serving(w, false));
      DeclinedScript(w);
      assert Followed(world, bytes, t, 14, script[14]);
      assert Passes(ChecksOf(w), t[14]);
      forall k | 0 <= k < 14 ensures !IsGrant(t[k]) {
        assert Followed(world, bytes, t, k, script[k]);
      }
    }
  }

  lemma DeclinedScript(w: Wiring)
    ensures var script := VERIFYING + (PLANNING + Serving(w, false));
            |script| > 14 && script[14] == OpenChunk && forall k :: 0 <= k < 14 && k != 6 ==> script[k] != Bind
  {
    assert VERIFYING + (PLANNING + Serving(w, false)) ==
      VERIFYING + PLANNING + [Bind] + HOSTING + REVOKING + [SecondProbe];
  }

  /** The outcome signal tells which check failed: two failing steps are blamed alike only for an error
      return of either bind, of either chunk, or of either revocation notification. */
  lemma CodesIdentifyTheStep(c: ProbeChecks, e1: Event, e2: Event, f: Failure)
    requires !Passes(c, e1) && !Passes(c, e2) && Blames(c, e1, f) && Blames(c, e2, f)
    ensures StepOf(e1) == StepOf(e2) || f in SHARED
  {
    hide Passes, Blames;
    if f !in SHARED {
      BlamedStep(c, e1, f);
      BlamedStep(c, e2, f);
    }
  }

  /** The codes that do not tell one step. */
  const SHARED := {Failure(Grant, 1), Failure(Revocation, 1), Failure(Revocation, 2)}

  /** The step every other code names. */
  function StepFor(f: Failure): Step {
    match f.stage
    case Package =>
      if f.detail == 1 then CheckLength else if f.detail == 2 then DecodePackage
      else if f.detail == 3 then VerifyForged else VerifyReal
    case Manifest => if f.detail == 1 then ParseManifest else CheckPlan
    case Grant =>
      if f.detail == 2 then Rebind else if f.detail == 3 then TryGrant
      else if f.detail == 4 then TryList else TryRevoke
    case Attenuation => TryEncrypt
    case Deserialize => DeserializeCode
    case Link => if f.detail == 0 then BuildLinker else Step.Engine(TrapImports)
    case Instantiate => if f.detail == 0 then Step.Engine(SetFuel) else InstantiateGuest
    case Lookup => Step.Engine(LookUpProbe)
    case Call => if f.detail == 0 then FirstProbe else SecondProbe
    case Revocation => if f.detail == 3 then SecondProbe else CloseChunk
    case _ => FirstProbe
  }

  lemma BlamedStep(c: ProbeChecks, e: Event, f: Failure)
    requires !Passes(c, e) && Blames(c, e, f) && f !in SHARED
    ensures StepOf(e) == StepFor(f)
  {
    hide Accepted, Refused, BlamesMarker, WiringOf;
  }

  predicate Splits(text: string, before: string, marker: string, after: string) {
    text == before + marker + after
  }

  /** A report contains a marker exactly when it is the marker with something, or nothing, on either side. */
  lemma ContainsIffItSplits(text: string, marker: string)
    ensures Contains(text, marker) <==> exists before, after :: Splits(text, before, marker, after)
  {
    if Contains(text, marker) {
      var i: nat :| i <= |text| && MarkerAt(text, marker, i);
      assert text == text[..i] + text[i..] && text[i..] == marker + text[i..][|marker|..];
      assert Splits(text, text[..i], marker, text[i..][|marker|..]);
    }
    if before, after :| Splits(text, before, marker, after) {
      assert text[|before|..] == marker + after;
      assert MarkerAt(text, marker, |before|);
    }
  }

  /** A reply label's status is its low half, whatever the rest of the label holds. */
  lemma StatusIsTheLowHalf(high: nat, low: nat)
    requires low < 0x1_0000
    ensures StatusIn(0x1_0000 * high + low) == low
  {
  }

  /** `0x100 | status` sets bit eight and leaves the bits below and above it. */
  lemma OrSetsBitEight(status: nat)
    ensures OrBit8(status) / 0x100 % 2 == 1
    ensures OrBit8(status) % 0x100 == status % 0x100 && OrBit8(status) / 0x200 == status / 0x200
  {
  }

  /** The altered copy differs from the package in the lowest bit of the code's last byte and nowhere else. */
  lemma OneBitIsAltered(package: Signed)
    ensures var copy := Tampered(package);
            && copy.manifest == package.manifest && copy.signature == package.signature
            && |copy.cwasm| == |package.cwasm|
            && (forall i :: 0 <= i < |package.cwasm| - 1 ==> copy.cwasm[i] == package.cwasm[i])
            && (package.cwasm != [] ==>
                  var x, y := package.cwasm[|package.cwasm| - 1] as int, copy.cwasm[|package.cwasm| - 1] as int;
                  x / 2 == y / 2 && x % 2 != y % 2)
  {
  }

  /** What is signalled at the end of a run. */
  function SignalOf(r: Option<Failure>, heapUsed: nat): Signal {
    match r
    case None => Signal(3, 0, heapUsed)
    case Some(f) => Signal(4, StageWord(f.stage), f.detail)
  }

  /** The stage words are the stages' places in the order below. */
  lemma StageWordsCountUp(i: nat)
    requires i < 12
    ensures var stages := [Done, Grant, Attenuation, Deserialize, Link, Instantiate, Lookup, Call, Verdict, Package,
                           Manifest, Revocation];
            StageWord(stages[i]) == i
  {
  }

  /** The signal tells the outcome: the notification says whether the run succeeded, and a failure's two words
      are no other failure's. */
  lemma SignalTellsTheOutcome(r: Option<Failure>, heap: nat, r': Option<Failure>, heap': nat)
    ensures SignalOf(r, heap) == SignalOf(r', heap') <==> r == r' && (r.None? ==> heap == heap')
  {
  }

  // ----- Slots, links and handles -----

  /** The manifest the guest is linked against and the one its host object is built from are one, and are
      what the package's own plan and the binder's own answer call for. */
  lemma OneManifest(world: World, bytes: seq<byte>, t: seq<Event>, r: Option<Failure>, i: nat)
    requires FollowsScript(world, bytes, t, r) && i < |t| && (t[i].LinkerBuilt? || t[i].Instantiated?)
    ensures LaunchManifest(world, bytes, Granted(t)) == Some(if t[i].LinkerBuilt? then t[i].linked else t[i].hosted)
  {
    var w := PlannedWiring(world, bytes);
    var script := VERIFYING + (PLANNING + Rest(w, Granted(t)));
    hide AnyVerifies, PlannedWiring, LaunchManifest, Blames, Passes, ChecksFor, Attenuating, HOSTING;
    assert Followed(world, bytes, t, i, script[i]);
    assert script[..6] == VERIFYING + PLANNING;
    assert i >= 6;
    if w.Some? {
      assert script[6] == Serving(w.value, Granted(t))[0] == Bind;
    }
    assert Granted(t[..i]) == Granted(t);
  }

  /** In every launch exactly the planned resource is linked; at any point of anything the guest then does,
      `open(slot)` yields a handle exactly for slot 0 of a launch the binder granted, given a free table
      index, and any other slot, declared or not, reads none; and no call it can import meets a missing
      clock. */
  lemma SlotLinkOpenAgree(world: World, bytes: seq<byte>, t: seq<Event>, r: Option<Failure>, i: nat,
                          kb: H.KeyBackend, fb: H.FileBackend, events: seq<H.Event>, slot: nat, pick: Option<nat>)
    requires FollowsScript(world, bytes, t, r) && i < |t| && t[i].Instantiated?
    ensures PlannedWiring(world, bytes).Some?
    ensures var w, m := PlannedWiring(world, bytes).value, t[i].hosted;
            var h := H.Run(H.New(m, kb, fb), events);
            var open := if w == ForKeystore then H.KeyOpen(slot, pick) else H.FileOpen(slot, pick);
            && (forall j :: 0 <= j < |t| && t[j].LinkerBuilt? ==> H.BuildLinker(t[j].linked) == {InterfaceOf(w)})
            && H.Step(h, open).1 ==
               H.Opened(if Granted(t) && slot == 0 && pick.Some? && pick.value !in h.table then pick else None)
            && (H.Clock !in H.BuildLinker(m))
  {
    OneManifest(world, bytes, t, r, i);
    forall j | 0 <= j < |t| && t[j].LinkerBuilt? ensures t[j].linked == t[i].hosted {
      OneManifest(world, bytes, t, r, j);
    }
    PlanManifest(world, bytes, Granted(t));
    hide FollowsScript, LaunchManifest, PlannedWiring, H.Step, H.Run, H.BuildLinker, KeyManifest, FileManifest;
    var m := t[i].hosted;
    if PlannedWiring(world, bytes) == Some(ForKeystore) {
      var n: nat :| n > 0 && m == KeyManifest(n, Granted(t));
      KeyOpensSlotZero(n, Granted(t), kb, fb, events, slot, pick);
    } else {
      var n: nat :| n > 0 && m == FileManifest(n, Granted(t));
      FileOpensSlotZero(n, Granted(t), kb, fb, events, slot, pick);
    }
  }

  lemma KeyOpensSlotZero(declared: nat, granted: bool, kb: H.KeyBackend, fb: H.FileBackend, events: seq<H.Event>,
                         slot: nat, pick: Option<nat>)
    requires declared > 0
    ensures var h := H.Run(H.New(KeyManifest(declared, granted), kb, fb), events);
            H.Step(h, H.KeyOpen(slot, pick)).1 ==
            H.Opened(if granted && slot == 0 && pick.Some? && pick.value !in h.table then pick else None)
  {
    R.RunKeepsConfined(KeyManifest(declared, granted), kb, fb, events);
    hide R.ServedGranted, R.SameTargets, R.EntryGranted, H.Run;
  }

  lemma FileOpensSlotZero(declared: nat, granted: bool, kb: H.KeyBackend, fb: H.FileBackend, events: seq<H.Event>,
                          slot: nat, pick: Option<nat>)
    requires declared > 0
    ensures var h := H.Run(H.New(FileManifest(declared, granted), kb, fb), events);
            H.Step(h, H.FileOpen(slot, pick)).1 ==
            H.Opened(if granted && slot == 0 && pick.Some? && pick.value !in h.table then pick else None)
  {
    R.RunKeepsConfined(FileManifest(declared, granted), kb, fb, events);
    hide R.ServedGranted, R.SameTargets, R.EntryGranted, H.Run;
  }

  /** A planned manifest has some slots of the planned resource and nothing else. */
  lemma PlanManifest(world: World, bytes: seq<byte>, granted: bool)
    requires LaunchManifest(world, bytes, granted).Some?
    ensures PlannedWiring(world, bytes).Some?
    ensures var w, m := PlannedWiring(world, bytes).value, LaunchManifest(world, bytes, granted).value;
            && m.monotonicClock.None?
            && H.BuildLinker(m) == {InterfaceOf(w)}
            && (w == ForKeystore ==> exists n: nat :: n > 0 && m == KeyManifest(n, granted))
            && (w == ForFilesystem ==> exists n: nat :: n > 0 && m == FileManifest(n, granted))
  {
    var plan := PlanOf(world, bytes).value;
    assert plan.keys > 0 ==> KeyManifest(plan.keys, granted).keystoreKeys != [];
    assert plan.files > 0 ==> FileManifest(plan.files, granted).filesystemFiles != [];
  }

  /** However the guest behaves, all that a service is ever made to serve is the badge the binder granted and
      the object that badge names, through its own service; a declined launch makes nobody serve anything. */
  lemma OnlyTheGrantIsUsed(world: World, bytes: seq<byte>, t: seq<Event>, r: Option<Failure>, i: nat,
                           ks: K.Keystore, st: S.Store, badge: nat, events: seq<H.Event>, s: H.Served)
    requires FollowsScript(world, bytes, t, r) && i < |t| && t[i].Instantiated?
    requires var w := PlannedWiring(world, bytes);
             var kb := if w == Some(ForKeystore) then H.RemoteKeystore(ks, badge) else H.NoKeystore;
             var fb := if w == Some(ForFilesystem) then H.RemoteFilesystem(st, badge) else H.NoFilesystem;
             s in H.Run(H.New(t[i].hosted, kb, fb), events).served
    ensures Granted(t)
    ensures s == if PlannedWiring(world, bytes) == Some(ForKeystore) then R.ChannelKey(ks, badge)
                 else R.ChannelFile(st, badge)
  {
    OneManifest(world, bytes, t, r, i);
    PlanManifest(world, bytes, Granted(t));
    var w, m := PlannedWiring(world, bytes), t[i].hosted;
    var kb := if w == Some(ForKeystore) then H.RemoteKeystore(ks, badge) else H.NoKeystore;
    var fb := if w == Some(ForFilesystem) then H.RemoteFilesystem(st, badge) else H.NoFilesystem;
    hide FollowsScript, LaunchManifest, PlannedWiring, H.Step, H.BuildLinker;
    R.ServedNeedsASlot(m, kb, fb, events, s);
    R.ConfinedServicesServeTheChannel(m, kb, fb, events, s);
  }

  /** The handle of a granted launch is good: opened at slot 0, it is served under the granted badge, by the
      service, on the object that badge names. */
  lemma GrantedKeyIsServed(world: World, bytes: seq<byte>, t: seq<Event>, r: Option<Failure>, i: nat,
                           ks: K.Keystore, badge: nat, rep: nat, call: K.KeyCall)
    requires FollowsScript(world, bytes, t, r) && i < |t| && t[i].Instantiated? && Granted(t)
    requires PlannedWiring(world, bytes) == Some(ForKeystore) && K.Lawful(ks.primitives) && I.Encodable(call)
    ensures var h := H.New(t[i].hosted, H.RemoteKeystore(ks, badge), H.NoFilesystem);
            var after := H.Step(h, H.KeyOpen(0, Some(rep))).0;
            H.Step(after, H.Method(rep, call)).1 ==
            H.KeyResult(K.GuestView(K.Serve(ks, badge, K.KeyOf(ks, badge), call)))
  {
    hide FollowsScript, LaunchManifest, PlannedWiring, Granted, K.Serve, K.Lawful, H.Step, KeyManifest, H.BuildLinker;
    OneManifest(world, bytes, t, r, i);
    PlanManifest(world, bytes, true);
    var n: nat :| n > 0 && t[i].hosted == KeyManifest(n, true);
    SlotZeroKeyIsServed(n, ks, badge, rep, call);
  }

  lemma SlotZeroKeyIsServed(n: nat, ks: K.Keystore, badge: nat, rep: nat, call: K.KeyCall)
    requires n > 0 && K.Lawful(ks.primitives) && I.Encodable(call)
    ensures var h := H.New(KeyManifest(n, true), H.RemoteKeystore(ks, badge), H.NoFilesystem);
            var after := H.Step(h, H.KeyOpen(0, Some(rep))).0;
            H.Step(after, H.Method(rep, call)).1 ==
            H.KeyResult(K.GuestView(K.Serve(ks, badge, K.KeyOf(ks, badge), call)))
  {
    hide K.Serve, K.Lawful, K.GuestView, H.CallKeystore;
    R.ServedAt(H.RemoteKeystore(ks, badge), H.HostCapability(0, 0, H.KeystoreService), call);
  }

  lemma GrantedFileIsServed(world: World, bytes: seq<byte>, t: seq<Event>, r: Option<Failure>, i: nat,
                            st: S.Store, badge: nat, rep: nat)
    requires FollowsScript(world, bytes, t, r) && i < |t| && t[i].Instantiated? && Granted(t)
    requires PlannedWiring(world, bytes) == Some(ForFilesystem) && S.Sound(st)
    ensures var h := H.New(t[i].hosted, H.NoKeystore, H.RemoteFilesystem(st, badge));
            var after := H.Step(h, H.FileOpen(0, Some(rep))).0;
            H.Step(after, H.FileRead(rep)).1 ==
            H.ReadResult(S.GuestRead(S.ReadBlock(st, badge, S.FileOf(st, badge))))
  {
    hide FollowsScript, LaunchManifest, PlannedWiring, Granted, H.Step, FileManifest, H.BuildLinker;
    hide S.ReadBlock, S.Sound;
    OneManifest(world, bytes, t, r, i);
    PlanManifest(world, bytes, true);
    var n: nat :| n > 0 && t[i].hosted == FileManifest(n, true);
    SlotZeroFileIsServed(n, st, badge, rep);
  }

  lemma SlotZeroFileIsServed(n: nat, st: S.Store, badge: nat, rep: nat)
    requires n > 0 && S.Sound(st)
    ensures var h := H.New(FileManifest(n, true), H.NoKeystore, H.RemoteFilesystem(st, badge));
            var after := H.Step(h, H.FileOpen(0, Some(rep))).0;
            H.Step(after, H.FileRead(rep)).1 ==
            H.ReadResult(S.GuestRead(S.ReadBlock(st, badge, S.FileOf(st, badge))))
  {
    hide S.ReadBlock, S.Sound, S.GuestRead, S.Serve, S.ReadAnswer;
    S.RemoteRefinesLocal(st, badge, S.FileOf(st, badge), []);
  }
}
