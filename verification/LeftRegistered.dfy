/** When unplugging a camera leaves a handle of it registered with a manager that other devices still use:
    what must hold before, for that never to happen whatever the HAL and the display answer. */
module LeftRegistered {
  import opened DeviceManager
  import opened VirtualDevice
  import opened VirtualDeviceRuns
  import opened BackedHandles
  import opened Sessions
  import opened SessionHealth
  import opened SessionTeardown
  import opened Unplugging

  /** Handle `h` is registered, for device `id`. */
  predicate IsOf(v: Vdm, h: int, id: int) {
    h in v.priority && h in v.handles && v.handles[h].deviceId == id
  }

  ghost predicate OthersIn(v: Vdm, id: int) {
    exists x :: x in v.priority && x in v.handles && v.handles[x].deviceId != id
  }

  ghost predicate HasEntry<K>(r: seq<Entry<K>>, k: K, h: int) {
    exists e :: e in r && e.manager == k && e.handle == h
  }

  /** The handle can outstay the release of its device: it would have to be stopped first, or release does
      not come across it, or closing it may be the physical close. */
  ghost predicate Sticks<K>(s: System<K>, k: K, h: int, id: int) {
    && k in s.managers && IsOf(s.managers[k], h, id)
    && (s.managers[k].handles[h].state != Opened || !HasEntry(s.registry, k, h) || !OthersIn(s.managers[k], id))
  }

  ghost predicate NothingSticks<K>(s: System<K>, k: K, id: int) {
    forall h :: !Sticks(s, k, h, id)
  }

  /** No entry of another device stands at the node of `id`. */
  ghost predicate AloneAtNode<K>(s: System<K>, id: int) {
    forall e :: e in s.registry && e.node == NodeOf(s.devices, id) ==> e.deviceId == id
  }

  /** That is so, whatever the answers, if the device is closed, or not at a calm node, or the only one with
      entries at its node. */
  lemma AloneIsFree<K>(s: System<K>, id: int, answers: nat -> Answers, calm: iset<string>)
    requires Healthy(s, calm)
    requires IsOpen(s.devices, id) && NodeOf(s.devices, id) in calm ==> AloneAtNode(s, id)
    ensures FreeOf(AfterRelease(s, id, answers), id, calm)
  {
    var t := AfterRelease(s, id, answers);
    ReleaseClears(s, id, answers, calm);
    hide AfterRelease;
    forall e, h | e in t.registry && e.node in calm && h in ManagerOf(t, e.manager).priority
      ensures h in ManagerOf(t, e.manager).handles && ManagerOf(t, e.manager).handles[h].deviceId != id
    {
      assert Served(t, e, calm);
    }
  }

  // ---- one manager ----

  lemma TwoRegistered(v: Vdm, h: int, x: int)
    requires h in v.priority && x in v.priority && h != x
    ensures |v.priority| >= 2
  {
    assert {h, x} <= v.priority.Keys;
    assert |v.priority.Keys - {h, x}| + |{h, x}| == |v.priority.Keys|;
  }

  /** A handle that is merely open and not the last one goes, whatever the answers. */
  lemma OpenedGoes(v: Vdm, ds: DeviceMap, h: int, a: Answers)
    requires h in v.handles && h in v.priority && v.handles[h].state == Opened && |v.priority| >= 2
    ensures var u := Close(Stopped(v, ds, h, a), ds, h, a).vdm;
            u.handles == v.handles - {h} && u.priority == v.priority - {h}
  {
    CaptureStopKeepsBooks(v, ds, h, a);
    hide StopCapture, StopCamera;
  }

  lemma UnknownStays(v: Vdm, ds: DeviceMap, h: int, a: Answers)
    requires h !in v.handles
    ensures Close(Stopped(v, ds, h, a), ds, h, a).vdm == v
  {
  }

  /** A HAL and a display that let go of nothing. */
  predicate Holding(a: Answers) {
    a.removeClient != OK && a.close != OK && !a.displayStop
  }

  /** What is left of a manager's books after one round against such answers. */
  predicate Held(v: Vdm, u: Vdm, h: int) {
    || (u.handles == v.handles && u.priority == v.priority)
    || (h in v.handles && v.handles[h].state == Opened && |v.priority| >= 2
        && u.handles == v.handles - {h} && u.priority == v.priority - {h})
  }

  /** Against such answers only a merely open handle goes that is not the last one. */
  lemma HeldStays(v: Vdm, ds: DeviceMap, h: int, a: Answers)
    requires Sound(v) && Holding(a) && (h in v.handles ==> IsOpen(ds, v.handles[h].deviceId))
    ensures Held(v, Close(Stopped(v, ds, h, a), ds, h, a).vdm, h)
  {
    NotStopped(v, ds, h, a);
    CloseHeld(Stopped(v, ds, h, a), ds, h, a);
  }

  lemma NotStopped(v: Vdm, ds: DeviceMap, h: int, a: Answers)
    requires Holding(a)
    ensures var u := Stopped(v, ds, h, a); u.handles == v.handles && u.priority == v.priority
  {
    CaptureStopKeepsBooks(v, ds, h, a);
    hide StopCapture;
  }

  lemma CloseHeld(v: Vdm, ds: DeviceMap, h: int, a: Answers)
    requires Holding(a) && (h in v.handles ==> IsOpen(ds, v.handles[h].deviceId))
    ensures Held(v, Close(v, ds, h, a).vdm, h)
  {
    if h in v.priority && |v.priority| < 2 {
      assert |v.priority| == 1;
    }
  }

  // ---- one round of release ----

  /** The system after one round of a teardown loop. */
  function Round<K(==)>(s: System<K>, i: nat, a: Answers): System<K>
    requires i < |s.registry|
  {
    StopAndClose(s, s.registry[i], a).(registry := RemoveAt(s.registry, i))
  }

  lemma OthersStay(v: Vdm, u: Vdm, h: int, id: int)
    requires u.handles == v.handles - {h} && u.priority == v.priority - {h}
    requires OthersIn(v, id) && IsOf(v, h, id)
    ensures OthersIn(u, id)
  {
    var x :| x in v.priority && x in v.handles && v.handles[x].deviceId != id;
    assert x in u.priority && x in u.handles;
  }

  /** If nothing sticks before a round, the entry's handle goes and nothing sticks after it. */
  lemma RoundLoosens<K>(s: System<K>, i: nat, id: int, a: Answers, k: K, calm: iset<string>)
    requires Healthy(s, calm) && i < |s.registry| && s.registry[i].deviceId == id
    requires NothingSticks(s, k, id)
    ensures NothingSticks(Round(s, i, a), k, id)
  {
    var e := s.registry[i];
    var t := Round(s, i, a);
    StopAndCloseIsLocal(s, e, a, calm);
    RemoveAtKeeps(s.registry, i);
    assert Served(s, e, calm);
    var v, u := s.managers[e.manager], t.managers[e.manager];
    hide Healthy, StopAndClose, Stopped, Close, Served;
    if e.manager == k {
      if e.handle in v.handles {
        assert IsOf(v, e.handle, id) && !Sticks(s, k, e.handle, id);
        var x :| x in v.priority && x in v.handles && v.handles[x].deviceId != id;
        TwoRegistered(v, e.handle, x);
        OpenedGoes(v, s.devices, e.handle, a);
        OthersStay(v, u, e.handle, id);
      } else {
        UnknownStays(v, s.devices, e.handle, a);
      }
    }
    forall h ensures !Sticks(t, k, h, id) {
      assert !Sticks(s, k, h, id);
      if k in t.managers && IsOf(t.managers[k], h, id) {
        var f :| f in s.registry && f.manager == k && f.handle == h;
        assert f in t.registry;
      }
    }
  }

  lemma Another(handles: set<int>, h: int) returns (x: int)
    requires h in handles && |handles| >= 2
    ensures x in handles && x != h
  {
    assert |handles - {h}| == |handles| - 1;
    x := SomeIn(handles - {h});
  }

  lemma OthersWere(v: Vdm, u: Vdm, h: int, id: int)
    requires Held(v, u, h)
    ensures OthersIn(u, id) ==> OthersIn(v, id)
  {
  }

  /** A handle of the device is still registered: the same one, or one that has no others beside it. */
  lemma HeldSticks(v: Vdm, u: Vdm, gone: int, h: int, id: int) returns (x: int)
    requires Held(v, u, gone) && IsOf(v, h, id) && v.priority.Keys <= v.handles.Keys
    requires h == gone ==> v.handles[h].state != Opened || !OthersIn(v, id)
    ensures IsOf(u, x, id)
    ensures (x == h && u.handles[h] == v.handles[h]) || !OthersIn(u, id)
  {
    x := h;
    OthersWere(v, u, gone, id);
    if h == gone && u.priority != v.priority {
      x := Another(v.priority.Keys, h);
      assert x in v.priority.Keys && !OthersIn(v, id);
    }
  }

  /** Against answers that let go of nothing, something that sticks leaves something that sticks. */
  lemma RoundHolds<K>(s: System<K>, i: nat, id: int, a: Answers, k: K, h: int, calm: iset<string>) returns (x: int)
    requires Healthy(s, calm) && i < |s.registry| && s.registry[i].deviceId == id && Holding(a)
    requires Sticks(s, k, h, id)
    ensures Sticks(Round(s, i, a), k, x, id)
  {
    var e := s.registry[i];
    var t := Round(s, i, a);
    StopAndCloseIsLocal(s, e, a, calm);
    assert Served(s, e, calm) && Sound(s.managers[e.manager]) && Consistent(s.managers[e.manager]);
    var v, u := s.managers[e.manager], t.managers[e.manager];
    HeldStays(v, s.devices, e.handle, a);
    hide Healthy, StopAndClose, Stopped, Close, Served, Sound, Consistent, HasEntry, OthersIn, Held;
    x := h;
    if e.manager == k {
      assert e.handle == h ==> HasEntry(s.registry, k, h) by { ItsEntry(s.registry, i); }
      x := HeldSticks(v, u, e.handle, h, id);
      OthersWere(v, u, e.handle, id);
    }
    FewerEntries(s.registry, i, k, h);
  }

  lemma ItsEntry<K>(r: seq<Entry<K>>, i: nat)
    requires i < |r|
    ensures HasEntry(r, r[i].manager, r[i].handle)
  {
  }

  lemma FewerEntries<K>(r: seq<Entry<K>>, i: nat, k: K, h: int)
    requires i < |r|
    ensures HasEntry(RemoveAt(r, i), k, h) ==> HasEntry(r, k, h)
  {
  }

  // ---- release ----

  lemma {:induction false} ReleaseLoosens<K>(s: System<K>, i: nat, id: int, answers: nat -> Answers, k: K,
                                             calm: iset<string>)
    requires Healthy(s, calm) && NothingSticks(s, k, id)
    ensures NothingSticks(Teardown(s, i, OfDevice(id), answers), k, id)
    decreases |s.registry| - i
  {
    if i < |s.registry| {
      hide StopAndClose, Healthy, Teardown, NothingSticks;
      TeardownRound(s, i, OfDevice(id), answers);
      if s.registry[i].deviceId == id {
        var a := answers(|s.registry| - 1 - i);
        RoundHealthy(s, i, a, calm);
        RoundLoosens(s, i, id, a, k, calm);
        ReleaseLoosens(Round(s, i, a), i, id, answers, k, calm);
      } else {
        ReleaseLoosens(s, i + 1, id, answers, k, calm);
      }
    }
  }

  /** Entry `f` of another device keeps the manager in use. */
  lemma {:induction false} ReleaseHolds<K>(s: System<K>, i: nat, id: int, answers: nat -> Answers, f: Entry<K>, h: int,
                                           calm: iset<string>) returns (x: int)
    requires Healthy(s, calm) && forall n :: Holding(answers(n))
    requires f in s.registry && f.deviceId != id && f.node in calm && Sticks(s, f.manager, h, id)
    ensures Sticks(Teardown(s, i, OfDevice(id), answers), f.manager, x, id)
    decreases |s.registry| - i
  {
    x := h;
    if i < |s.registry| {
      hide StopAndClose, Healthy, Teardown, Sticks;
      TeardownRound(s, i, OfDevice(id), answers);
      if s.registry[i].deviceId == id {
        var a := answers(|s.registry| - 1 - i);
        RoundHealthy(s, i, a, calm);
        x := RoundHolds(s, i, id, a, f.manager, h, calm);
        OtherEntryStays(s, i, f, calm);
        x := ReleaseHolds(Round(s, i, a), i, id, answers, f, x, calm);
      } else {
        x := ReleaseHolds(s, i + 1, id, answers, f, h, calm);
      }
    }
  }

  lemma OtherEntryStays<K>(s: System<K>, i: nat, f: Entry<K>, calm: iset<string>)
    requires Healthy(s, calm) && i < |s.registry| && f in s.registry && f.deviceId != s.registry[i].deviceId
    ensures f in RemoveAt(s.registry, i)
  {
  }

  // ---- the exact condition ----

  /** Unplugging the device leaves nothing registered at a calm node: it is closed, or elsewhere, or alone
      at its node, or nothing there can outstay its release. */
  ghost predicate Settled<K>(s: System<K>, id: int, calm: iset<string>) {
    || !IsOpen(s.devices, id)
    || NodeOf(s.devices, id) !in calm
    || AloneAtNode(s, id)
    || forall e :: e in s.registry && e.node == NodeOf(s.devices, id) ==> NothingSticks(s, e.manager, id)
  }

  lemma LooseIsFree<K>(s: System<K>, id: int, answers: nat -> Answers, calm: iset<string>)
    requires Healthy(s, calm) && IsOpen(s.devices, id)
    requires forall e :: e in s.registry && e.node == NodeOf(s.devices, id) ==> NothingSticks(s, e.manager, id)
    ensures FreeOf(AfterRelease(s, id, answers), id, calm)
  {
    var t := AfterRelease(s, id, answers);
    ReleaseClears(s, id, answers, calm);
    assert t == Teardown(s, 0, OfDevice(id), answers);
    hide AfterRelease, Teardown;
    forall e, h | e in t.registry && e.node in calm && h in ManagerOf(t, e.manager).priority
      ensures h in ManagerOf(t, e.manager).handles && ManagerOf(t, e.manager).handles[h].deviceId != id
    {
      assert Served(t, e, calm);
      if e.node == NodeOf(s.devices, id) {
        ReleaseLoosens(s, 0, id, answers, e.manager, calm);
        assert !Sticks(t, e.manager, h, id);
      }
    }
  }

  const REFUSING_ALL: Answers :=
    Answers(Unknown, Unknown, Unknown, Unknown, Unknown, Unknown, Unknown, Unknown, Unknown, Unknown, Unknown, Unknown,
            false, false, [])

  lemma NotSettledStays<K>(s: System<K>, id: int, calm: iset<string>)
    requires Healthy(s, calm) && !Settled(s, id, calm)
    ensures !FreeOf(AfterRelease(s, id, _ => REFUSING_ALL), id, calm)
  {
    var answers: nat -> Answers := _ => REFUSING_ALL;
    var node := NodeOf(s.devices, id);
    var f :| f in s.registry && f.node == node && f.deviceId != id;
    var e :| e in s.registry && e.node == node && !NothingSticks(s, e.manager, id);
    var h :| Sticks(s, e.manager, h, id);
    assert e.manager == f.manager;
    var x := ReleaseHolds(s, 0, id, answers, f, h, calm);
    TeardownIsExact(s, OfDevice(id), answers, calm);
    RemainingAre(s.registry, OfDevice(id), f);
    hide Teardown, Healthy;
    var t := AfterRelease(s, id, answers);
    assert f in t.registry && x in ManagerOf(t, f.manager).priority;
  }

  /** Unplugging keeps what the registry promises whatever the answers, exactly if the state before it is
      settled for the device. */
  lemma UnplugHealthy<K>(s: System<K>, id: int, calm: iset<string>)
    requires Healthy(s, calm)
    ensures (forall answers :: Healthy(WithoutDevice(s, id, answers), calm)) <==> Settled(s, id, calm)
  {
    hide Healthy, WithoutDevice, AfterRelease, FreeOf, NothingSticks;
    if Settled(s, id, calm) {
      forall answers: nat -> Answers ensures Healthy(WithoutDevice(s, id, answers), calm) {
        SettledIsFree(s, id, answers, calm);
        ForgottenHealthy(s, id, answers, calm);
      }
    } else {
      NotSettledStays(s, id, calm);
      ForgottenHealthy(s, id, _ => REFUSING_ALL, calm);
    }
  }

  lemma SettledIsFree<K>(s: System<K>, id: int, answers: nat -> Answers, calm: iset<string>)
    requires Healthy(s, calm) && Settled(s, id, calm)
    ensures FreeOf(AfterRelease(s, id, answers), id, calm)
  {
    hide Healthy, NothingSticks, FreeOf, AfterRelease;
    if IsOpen(s.devices, id) && NodeOf(s.devices, id) in calm && !AloneAtNode(s, id) {
      LooseIsFree(s, id, answers, calm);
    } else {
      AloneIsFree(s, id, answers, calm);
    }
  }
}
