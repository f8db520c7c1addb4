/** A guest's handles, told from the history of its own calls: what each names, and for how long. */
module HandleHistory {
  import opened Prelude
  import opened Host
  import K = Keystore

  // ----- One step -----

  /** An open that yields a handle makes it name that very slot's record; a drop of a handle ends it; nothing
      else changes what a handle names. */
  lemma KeyCapStep(h: HostState, e: Event, rep: nat)
    ensures KeyCap(Step(h, e).0, rep) ==
            if e.KeyOpen? && Step(h, e).1 == Opened(Some(rep)) then Slot(h.keys, e.slot)
            else if e == KeyDrop(rep) then None
            else KeyCap(h, rep)
    ensures e.KeyOpen? && Step(h, e).1 == Opened(Some(rep)) ==> KeyCap(h, rep).None? && Slot(h.keys, e.slot).Some?
    ensures Step(h, e).0.keys == h.keys
  {
  }

  lemma FileCapStep(h: HostState, e: Event, rep: nat)
    ensures FileCap(Step(h, e).0, rep) ==
            if e.FileOpen? && Step(h, e).1 == Opened(Some(rep)) then Slot(h.files, e.slot)
            else if e == FileDrop(rep) then None
            else FileCap(h, rep)
    ensures e.FileOpen? && Step(h, e).1 == Opened(Some(rep)) ==> FileCap(h, rep).None? && Slot(h.files, e.slot).Some?
    ensures Step(h, e).0.files == h.files
  {
  }

  // ----- Over a run -----

  ghost predicate OpensKey(h: HostState, events: seq<Event>, rep: nat, cap: HostCapability, i: nat)
    requires i < |events|
  {
    && events[i].KeyOpen? && ReplyAt(h, events, i) == Opened(Some(rep)) && Slot(h.keys, events[i].slot) == Some(cap)
  }

  /** The open at `i` yielded `rep` for `cap`'s slot, and nothing after it dropped it. */
  ghost predicate KeyHeldSince(h: HostState, events: seq<Event>, rep: nat, cap: HostCapability, i: nat)
    requires i < |events|
  {
    OpensKey(h, events, rep, cap, i) && forall k :: i < k < |events| ==> events[k] != KeyDrop(rep)
  }

  ghost predicate NamesKey(h: HostState, events: seq<Event>, rep: nat, cap: HostCapability) {
    exists i: nat :: i < |events| && KeyHeldSince(h, events, rep, cap, i)
  }

  lemma KeyHeldExtends(h: HostState, events: seq<Event>, rep: nat, cap: HostCapability, i: nat)
    requires i < |events| - 1
    ensures KeyHeldSince(h, events, rep, cap, i) <==>
            KeyHeldSince(h, events[..|events| - 1], rep, cap, i) && events[|events| - 1] != KeyDrop(rep)
  {
    hide Run, Step;
    assert events[..|events| - 1][..i] == events[..i];
  }

  lemma NamesKeyStep(h: HostState, events: seq<Event>, rep: nat, cap: HostCapability)
    requires events != []
    ensures var n := |events| - 1;
            NamesKey(h, events, rep, cap) <==>
            OpensKey(h, events, rep, cap, n) || (NamesKey(h, events[..n], rep, cap) && events[n] != KeyDrop(rep))
  {
    hide Run, Step, OpensKey;
    var n := |events| - 1;
    if OpensKey(h, events, rep, cap, n) {
      assert KeyHeldSince(h, events, rep, cap, n);
    } else if NamesKey(h, events[..n], rep, cap) && events[n] != KeyDrop(rep) {
      var i: nat :| i < n && KeyHeldSince(h, events[..n], rep, cap, i);
      KeyHeldExtends(h, events, rep, cap, i);
    } else if NamesKey(h, events, rep, cap) {
      var i: nat :| i <= n && KeyHeldSince(h, events, rep, cap, i);
      if i < n {
        KeyHeldExtends(h, events, rep, cap, i);
      }
    }
  }

  /** At any point of any run a handle names a key exactly when an open of that key's slot yielded it and it
      has not been dropped since. */
  lemma {:induction false} HandleNamesItsKey(m: GrantManifest, kb: KeyBackend, fb: FileBackend, events: seq<Event>,
                                             rep: nat, cap: HostCapability)
    ensures KeyCap(Run(New(m, kb, fb), events), rep) == Some(cap) <==> NamesKey(New(m, kb, fb), events, rep, cap)
    ensures Run(New(m, kb, fb), events).keys == m.keystoreKeys
  {
    hide Step;
    if events != [] {
      var h, front := New(m, kb, fb), events[..|events| - 1];
      HandleNamesItsKey(m, kb, fb, front, rep, cap);
      KeyCapStep(Run(h, front), events[|events| - 1], rep);
      hide NamesKey;
      NamesKeyStep(h, events, rep, cap);
    }
  }

  // ----- The same for files -----

  ghost predicate OpensFile(h: HostState, events: seq<Event>, rep: nat, f: HostFile, i: nat)
    requires i < |events|
  {
    && events[i].FileOpen? && ReplyAt(h, events, i) == Opened(Some(rep)) && Slot(h.files, events[i].slot) == Some(f)
  }

  /** The file twin of `KeyHeldSince`. */
  ghost predicate FileHeldSince(h: HostState, events: seq<Event>, rep: nat, f: HostFile, i: nat)
    requires i < |events|
  {
    OpensFile(h, events, rep, f, i) && forall k :: i < k < |events| ==> events[k] != FileDrop(rep)
  }

  ghost predicate NamesFile(h: HostState, events: seq<Event>, rep: nat, f: HostFile) {
    exists i: nat :: i < |events| && FileHeldSince(h, events, rep, f, i)
  }

  lemma FileHeldExtends(h: HostState, events: seq<Event>, rep: nat, f: HostFile, i: nat)
    requires i < |events| - 1
    ensures FileHeldSince(h, events, rep, f, i) <==>
            FileHeldSince(h, events[..|events| - 1], rep, f, i) && events[|events| - 1] != FileDrop(rep)
  {
    hide Run, Step;
    assert events[..|events| - 1][..i] == events[..i];
  }

  lemma NamesFileStep(h: HostState, events: seq<Event>, rep: nat, f: HostFile)
    requires events != []
    ensures var n := |events| - 1;
            NamesFile(h, events, rep, f) <==>
            OpensFile(h, events, rep, f, n) || (NamesFile(h, events[..n], rep, f) && events[n] != FileDrop(rep))
  {
    hide Run, Step, OpensFile;
    var n := |events| - 1;
    if OpensFile(h, events, rep, f, n) {
      assert FileHeldSince(h, events, rep, f, n);
    } else if NamesFile(h, events[..n], rep, f) && events[n] != FileDrop(rep) {
      var i: nat :| i < n && FileHeldSince(h, events[..n], rep, f, i);
      FileHeldExtends(h, events, rep, f, i);
    } else if NamesFile(h, events, rep, f) {
      var i: nat :| i <= n && FileHeldSince(h, events, rep, f, i);
      if i < n {
        FileHeldExtends(h, events, rep, f, i);
      }
    }
  }

  lemma {:induction false} HandleNamesItsFile(m: GrantManifest, kb: KeyBackend, fb: FileBackend, events: seq<Event>,
                                              rep: nat, f: HostFile)
    ensures FileCap(Run(New(m, kb, fb), events), rep) == Some(f) <==> NamesFile(New(m, kb, fb), events, rep, f)
    ensures Run(New(m, kb, fb), events).files == m.filesystemFiles
  {
    hide Step;
    if events != [] {
      var h, front := New(m, kb, fb), events[..|events| - 1];
      HandleNamesItsFile(m, kb, fb, front, rep, f);
      FileCapStep(Run(h, front), events[|events| - 1], rep);
      hide NamesFile;
      NamesFileStep(h, events, rep, f);
    }
  }

  // ----- Dropped handles -----

  /** No open of either kind hands `rep` out in this run. */
  ghost predicate NotHandedOut(h: HostState, events: seq<Event>, rep: nat) {
    forall i :: 0 <= i < |events| ==> ReplyAt(h, events, i) != Opened(Some(rep))
  }

  lemma {:induction false} StaysUnnamed(h: HostState, events: seq<Event>, rep: nat)
    requires NotHandedOut(h, events, rep)
    ensures KeyCap(h, rep).None? ==> KeyCap(Run(h, events), rep).None?
    ensures FileCap(h, rep).None? ==> FileCap(Run(h, events), rep).None?
  {
    hide Step;
    if events != [] {
      var n := |events| - 1;
      FrontNotHandedOut(h, events, rep);
      StaysUnnamed(h, events[..n], rep);
      KeyCapStep(Run(h, events[..n]), events[n], rep);
      FileCapStep(Run(h, events[..n]), events[n], rep);
      assert ReplyAt(h, events, n) != Opened(Some(rep));
    }
  }

  lemma FrontNotHandedOut(h: HostState, events: seq<Event>, rep: nat)
    requires NotHandedOut(h, events, rep) && events != []
    ensures NotHandedOut(h, events[..|events| - 1], rep)
  {
    hide Run, Step;
    var front := events[..|events| - 1];
    forall i | 0 <= i < |front| ensures ReplyAt(h, front, i) != Opened(Some(rep)) {
      assert front[..i] == events[..i];
      assert ReplyAt(h, events, i) != Opened(Some(rep));
    }
  }

  /** A drop takes effect exactly on a handle of its kind, and is final: until an open hands the number out
      again, every call through it reads `access`, nobody serves it, and a second drop is refused. */
  lemma DroppedKeyIsDead(h: HostState, rep: nat, events: seq<Event>, call: K.KeyCall)
    requires NotHandedOut(Step(h, KeyDrop(rep)).0, events, rep)
    ensures Step(h, KeyDrop(rep)).1 == Dropped(KeyCap(h, rep).Some?)
    ensures var t := Run(Step(h, KeyDrop(rep)).0, events);
            && Step(t, Method(rep, call)) == (t, KeyResult(Err(K.Access)))
            && Step(t, KeyDrop(rep)) == (t, Dropped(false))
  {
    KeyCapStep(h, KeyDrop(rep), rep);
    StaysUnnamed(Step(h, KeyDrop(rep)).0, events, rep);
  }

  lemma DroppedFileIsDead(h: HostState, rep: nat, events: seq<Event>, bytes: seq<byte>)
    requires NotHandedOut(Step(h, FileDrop(rep)).0, events, rep)
    ensures Step(h, FileDrop(rep)).1 == Dropped(FileCap(h, rep).Some?)
    ensures var t := Run(Step(h, FileDrop(rep)).0, events);
            && Step(t, FileRead(rep)) == (t, ReadResult(Err(K.Access)))
            && Step(t, FileWrite(rep, bytes)) == (t, WriteResult(Err(K.Access)))
            && Step(t, FileDrop(rep)) == (t, Dropped(false))
  {
    FileCapStep(h, FileDrop(rep), rep);
    StaysUnnamed(Step(h, FileDrop(rep)).0, events, rep);
  }

  // ----- Opens and drops -----

  ghost predicate LiveKey(h: HostState, events: seq<Event>, rep: nat) {
    exists cap :: NamesKey(h, events, rep, cap)
  }

  ghost predicate LiveFile(h: HostState, events: seq<Event>, rep: nat) {
    exists f :: NamesFile(h, events, rep, f)
  }

  lemma LiveIffInTable(m: GrantManifest, kb: KeyBackend, fb: FileBackend, events: seq<Event>, rep: nat)
    ensures var h := New(m, kb, fb);
            && (LiveKey(h, events, rep) <==> KeyCap(Run(h, events), rep).Some?)
            && (LiveFile(h, events, rep) <==> FileCap(Run(h, events), rep).Some?)
  {
    hide Run, NamesKey, NamesFile;
    var h := New(m, kb, fb);
    forall cap ensures KeyCap(Run(h, events), rep) == Some(cap) <==> NamesKey(h, events, rep, cap) {
      HandleNamesItsKey(m, kb, fb, events, rep, cap);
    }
    forall f ensures FileCap(Run(h, events), rep) == Some(f) <==> NamesFile(h, events, rep, f) {
      HandleNamesItsFile(m, kb, fb, events, rep, f);
    }
  }

  /** An open yields the number picked exactly when its slot is filled and no live handle has that number; a
      drop succeeds exactly on a live handle of its kind. */
  lemma OpensAndDropsFromHistory(m: GrantManifest, kb: KeyBackend, fb: FileBackend, events: seq<Event>, slot: nat,
                                 rep: nat)
    ensures var h := New(m, kb, fb);
            var t := Run(h, events);
            var free := !LiveKey(h, events, rep) && !LiveFile(h, events, rep);
            && Step(t, KeyOpen(slot, Some(rep))).1 ==
               Opened(if Slot(m.keystoreKeys, slot).Some? && free then Some(rep) else None)
            && Step(t, FileOpen(slot, Some(rep))).1 ==
               Opened(if Slot(m.filesystemFiles, slot).Some? && free then Some(rep) else None)
            && Step(t, KeyOpen(slot, None)).1 == Step(t, FileOpen(slot, None)).1 == Opened(None)
            && Step(t, KeyDrop(rep)).1 == Dropped(LiveKey(h, events, rep))
            && Step(t, FileDrop(rep)).1 == Dropped(LiveFile(h, events, rep))
  {
    hide Run, LiveKey, LiveFile;
    LiveIffInTable(m, kb, fb, events, rep);
    HandleNamesItsKey(m, kb, fb, events, rep, HostCapability(0, 0, KeystoreService));
    HandleNamesItsFile(m, kb, fb, events, rep, HostFile(0, 0, FilesystemService));
  }
}
