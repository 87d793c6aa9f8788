/** Teardown is exact: a client that leaves, a device that goes, or a crash takes along exactly the
    matching handles, and nothing of any other. */
module SessionTeardown {
  import opened DeviceManager
  import opened VirtualDevice
  import opened VirtualDeviceRuns
  import opened BackedHandles
  import opened Sessions
  import opened SessionHealth

  function Remaining<K>(r: seq<Entry<K>>, w: Whose): seq<Entry<K>> {
    if r == [] then []
    else if Selected(w, r[0]) then Remaining(r[1..], w)
    else [r[0]] + Remaining(r[1..], w)
  }

  lemma Around<K>(r: seq<Entry<K>>, i: nat)
    requires i < |r|
    ensures RemoveAt(r, i)[..i] == r[..i] && RemoveAt(r, i)[i..] == r[i + 1..]
    ensures r[i..][1..] == r[i + 1..] && r[..i + 1] == r[..i] + [r[i]]
  {
  }

  lemma RemainingFrom<K>(r: seq<Entry<K>>, i: nat, w: Whose)
    requires i < |r|
    ensures Selected(w, r[i]) ==>
              r[..i] + Remaining(r[i..], w) == RemoveAt(r, i)[..i] + Remaining(RemoveAt(r, i)[i..], w)
    ensures !Selected(w, r[i]) ==> r[..i] + Remaining(r[i..], w) == r[..i + 1] + Remaining(r[i + 1..], w)
  {
  }

  /** One round of the loop. */
  lemma TeardownRound<K>(s: System<K>, i: nat, w: Whose, answers: nat -> Answers)
    requires i < |s.registry|
    ensures Teardown(s, i, w, answers) ==
            if Selected(w, s.registry[i]) then
              var s1 := StopAndClose(s, s.registry[i], answers(|s.registry| - 1 - i));
              Teardown(s1.(registry := RemoveAt(s.registry, i)), i, w, answers)
            else Teardown(s, i + 1, w, answers)
  {
    hide StopAndClose, Selected, RemoveAt;
  }

  /** Whatever the answers, the matching entries go and the others stay, in order. */
  lemma {:induction false} TeardownRegistry<K>(s: System<K>, i: nat, w: Whose, answers: nat -> Answers)
    requires i <= |s.registry|
    ensures Teardown(s, i, w, answers).registry == s.registry[..i] + Remaining(s.registry[i..], w)
    decreases |s.registry| - i
  {
    if i < |s.registry| {
      hide StopAndClose, Teardown;
      TeardownRound(s, i, w, answers);
      RemainingFrom(s.registry, i, w);
      if Selected(w, s.registry[i]) {
        var s1 := StopAndClose(s, s.registry[i], answers(|s.registry| - 1 - i));
        TeardownRegistry(s1.(registry := RemoveAt(s.registry, i)), i, w, answers);
      } else {
        TeardownRegistry(s, i + 1, w, answers);
      }
    }
  }

  // ---- the managers ----

  predicate Willing(a: Answers) {
    a.removeClient == OK && a.stopPreview == OK && a.close == OK && a.destroyHal == OK && a.displayStop
  }

  /** From `v` to `u`, exactly the handles `gone` went: out of both maps and out of the streaming list. */
  ghost predicate Cleared(v: Vdm, u: Vdm, gone: set<int>) {
    && u.handles == v.handles - gone
    && u.priority == v.priority - gone
    && (forall h :: h in u.streaming <==> h in v.streaming && h !in gone)
  }

  lemma ClearedTwice(v: Vdm, u: Vdm, w: Vdm, a: set<int>, b: set<int>)
    requires Cleared(v, u, a) && Cleared(u, w, b)
    ensures Cleared(v, w, a + b)
  {
  }

  lemma NothingCleared(v: Vdm)
    ensures Cleared(v, v, {})
  {
  }

  /** stopAndCloseDevice within the manager of the handle. */
  function Stopped(v: Vdm, ds: DeviceMap, h: int, a: Answers): Vdm {
    var v1 := StopCapture(v, ds, h, true, a).vdm;
    if h in v1.handles && v1.handles[h].state.Streaming? then StopCamera(v1, ds, h, a).vdm
    else if h in v1.handles && v1.handles[h].state.Preview? then StopPreview(v1, ds, h, a).vdm
    else v1
  }

  lemma CaptureStopKeepsBooks(v: Vdm, ds: DeviceMap, h: int, a: Answers)
    ensures var u := StopCapture(v, ds, h, true, a).vdm;
            u.handles == v.handles && u.priority == v.priority && u.streaming == v.streaming
  {
  }

  /** A streaming or previewing handle is stopped when the HAL and the display are willing. */
  lemma CameraStops(v: Vdm, ds: DeviceMap, h: int, a: Answers)
    requires h in v.handles && IsOpen(ds, v.handles[h].deviceId) && Willing(a)
    requires v.handles[h].state.Streaming? || v.handles[h].state.Preview?
    requires h in v.streaming
    ensures var u := StopCamera(v, ds, h, a).vdm;
            && u.handles == v.handles[h := v.handles[h].(state := Opened)]
            && u.priority == v.priority && u.streaming == EraseFirst(v.streaming, h)
    ensures StopPreview(v, ds, h, a) == StopCamera(v, ds, h, a)
  {
  }

  /** Once stopped, an open handle is merely open, and no other handle changed. */
  lemma StoppedIsOpened(v: Vdm, ds: DeviceMap, h: int, a: Answers)
    requires Sound(v) && Willing(a)
    requires h in v.handles && IsOpen(ds, v.handles[h].deviceId)
    ensures var u := Stopped(v, ds, h, a);
            && u.handles == v.handles[h := v.handles[h].(state := Opened)]
            && u.priority == v.priority
            && (forall x :: x in u.streaming <==> x in v.streaming && x != h)
  {
    var v1 := StopCapture(v, ds, h, true, a).vdm;
    assert Active(v, h) <==> h in v.streaming;
    assert v.handles[h].state != Closed && NoDuplicates(v.streaming);
    CaptureStopKeepsBooks(v, ds, h, a);
    hide StopCapture, StopCamera, StopPreview, EraseFirst, Sound, Consistent, Willing;
    if Active(v, h) {
      CameraStops(v1, ds, h, a);
      EraseFirstOf(v.streaming, h);
    } else {
      assert v.handles == v.handles[h := v.handles[h].(state := Opened)];
    }
  }

  lemma ClosedIsGone(v: Vdm, ds: DeviceMap, h: int, a: Answers)
    requires h in v.handles && h in v.priority && v.handles[h].state == Opened && Willing(a)
    requires IsOpen(ds, v.handles[h].deviceId)
    ensures var u := Close(v, ds, h, a).vdm;
            u.handles == v.handles - {h} && u.priority == v.priority - {h} && u.streaming == v.streaming
  {
  }

  lemma StoppedAndClosed(v: Vdm, ds: DeviceMap, h: int, a: Answers)
    requires Sound(v) && Willing(a)
    requires h in v.handles ==> h in v.priority && IsOpen(ds, v.handles[h].deviceId)
    ensures Cleared(v, Close(Stopped(v, ds, h, a), ds, h, a).vdm, {h})
  {
    if h in v.handles {
      StoppedIsOpened(v, ds, h, a);
      var u := Stopped(v, ds, h, a);
      ClosedIsGone(u, ds, h, a);
      assert v.handles[h := v.handles[h].(state := Opened)] - {h} == v.handles - {h};
    } else {
      assert h !in v.priority.Keys && !Active(v, h);
      assert v.handles - {h} == v.handles && v.priority - {h} == v.priority;
    }
  }

  /** With distinct handles a call made with an entry's handle reaches the entry's manager. */
  lemma RouteIsLocal<K>(s: System<K>, e: Entry<K>, op: Op, a: Answers)
    requires DistinctHandles(s.registry) && e in s.registry
    requires !op.DoOpen? && !op.DoClose? && Target(op) == e.handle && e.handle != INVALID_ID
    ensures Route(s, op, a).system == Returned(s, e.manager, Step(ManagerOf(s, e.manager), s.devices, op, a))
  {
  }

  lemma StateIsLocal<K>(s: System<K>, e: Entry<K>)
    requires DistinctHandles(s.registry) && e in s.registry
    ensures var v := ManagerOf(s, e.manager);
            StateOf(s, e.handle) == if e.handle in v.handles then v.handles[e.handle].state else Closed
  {
  }

  lemma StopsKeepDevices(v: Vdm, ds: DeviceMap, h: int, a: Answers)
    ensures StopCapture(v, ds, h, true, a).devices == ds
    ensures StopCapture(v, ds, h, true, a).vdm.handles == v.handles
    ensures StopCamera(v, ds, h, a).devices == ds && StopPreview(v, ds, h, a).devices == ds
  {
  }

  lemma StopAllIsLocal<K>(s: System<K>, e: Entry<K>, a: Answers, calm: iset<string>)
    requires Healthy(s, calm) && e in s.registry
    ensures var t := StopAll(s, e, a);
            && t.managers == s.managers[e.manager := Stopped(s.managers[e.manager], s.devices, e.handle, a)]
            && t.devices == s.devices
  {
    assert Served(s, e, calm);
    assert Sound(s.managers[e.manager]) && Consistent(s.managers[e.manager]);
    assert e.handle in s.managers[e.manager].handles ==> e.handle != INVALID_ID;
    hide StopCapture, StopCamera, StopPreview, Healthy, Served, Sound, Consistent, Route, Find, StateOf;
    var v, h := s.managers[e.manager], e.handle;
    var v1 := StopCapture(v, s.devices, h, true, a).vdm;
    StopsKeepDevices(v, s.devices, h, a);
    StopsKeepDevices(v1, s.devices, h, a);
    var s1 := Returned(s, e.manager, StopCapture(v, s.devices, h, true, a));
    StateIsLocal(s1, e);
    assert Sound(v);
    if h in v1.handles {
      RouteIsLocal(s1, e, DoStopCamera(h), a);
      RouteIsLocal(s1, e, DoStopPreview(h), a);
    }
  }

  /** With distinct handles everything stopAndCloseDevice does happens in the entry's own manager. */
  lemma StopAndCloseIsLocal<K>(s: System<K>, e: Entry<K>, a: Answers, calm: iset<string>)
    requires Healthy(s, calm) && e in s.registry
    ensures var v := s.managers[e.manager];
            StopAndClose(s, e, a).managers ==
              s.managers[e.manager := Close(Stopped(v, s.devices, e.handle, a), s.devices, e.handle, a).vdm]
  {
    StopAllIsLocal(s, e, a, calm);
  }

  lemma StopAndCloseClears<K>(s: System<K>, e: Entry<K>, a: Answers, calm: iset<string>)
    requires Healthy(s, calm) && e in s.registry && Willing(a)
    ensures var t := StopAndClose(s, e, a);
            && t.managers.Keys == s.managers.Keys
            && Cleared(s.managers[e.manager], t.managers[e.manager], {e.handle})
            && forall k :: k in s.managers && k != e.manager ==> t.managers[k] == s.managers[k]
  {
    assert Served(s, e, calm);
    StopAndCloseIsLocal(s, e, a, calm);
    StoppedAndClosed(s.managers[e.manager], s.devices, e.handle, a);
  }

  /** The handles of manager `k` that teardown takes. */
  ghost function Gone<K>(r: seq<Entry<K>>, w: Whose, k: K): set<int> {
    set e | e in r && Selected(w, e) && e.manager == k :: e.handle
  }

  lemma GoneFirst<K>(r: seq<Entry<K>>, w: Whose, k: K)
    requires r != []
    ensures Gone(r, w, k) == (if Selected(w, r[0]) && r[0].manager == k then {r[0].handle} else {}) + Gone(r[1..], w, k)
  {
  }

  ghost predicate AllCleared<K>(s: System<K>, t: System<K>, r: seq<Entry<K>>, w: Whose) {
    && t.managers.Keys == s.managers.Keys
    && forall k :: k in s.managers ==> Cleared(s.managers[k], t.managers[k], Gone(r, w, k))
  }

  lemma {:induction false} TeardownClears<K>(s: System<K>, i: nat, w: Whose, answers: nat -> Answers,
                                             calm: iset<string>)
    requires i <= |s.registry| && Healthy(s, calm) && forall n :: Willing(answers(n))
    ensures AllCleared(s, Teardown(s, i, w, answers), s.registry[i..], w)
    decreases |s.registry| - i
  {
    if i == |s.registry| {
      forall k | k in s.managers ensures Cleared(s.managers[k], s.managers[k], Gone(s.registry[i..], w, k)) {
        NothingCleared(s.managers[k]);
      }
    } else if Selected(w, s.registry[i]) {
      TeardownOne(s, i, w, answers, calm);
    } else {
      TeardownClears(s, i + 1, w, answers, calm);
      assert s.registry[i..][1..] == s.registry[i + 1..];
      forall k | k in s.managers ensures Gone(s.registry[i..], w, k) == Gone(s.registry[i + 1..], w, k) {
        GoneFirst(s.registry[i..], w, k);
      }
    }
  }

  lemma TeardownOne<K>(s: System<K>, i: nat, w: Whose, answers: nat -> Answers, calm: iset<string>)
    requires i < |s.registry| && Healthy(s, calm) && forall n :: Willing(answers(n))
    requires Selected(w, s.registry[i])
    ensures AllCleared(s, Teardown(s, i, w, answers), s.registry[i..], w)
    decreases |s.registry| - i, 0
  {
    assert |RemoveAt(s.registry, i)| == |s.registry| - 1;
    hide StopAndClose, Teardown, Healthy, Cleared, Gone, RemoveAt, Willing;
    var e := s.registry[i];
    var a := answers(|s.registry| - 1 - i);
    var s1 := StopAndClose(s, e, a);
    var r := RemoveAt(s.registry, i);
    TeardownRound(s, i, w, answers);
    RoundHealthy(s, i, a, calm);
    StopAndCloseClears(s, e, a, calm);
    Around(s.registry, i);
    TeardownClears(s1.(registry := r), i, w, answers, calm);
    var t := Teardown(s1.(registry := r), i, w, answers);
    assert r[i..] == s.registry[i..][1..];
    forall k | k in s.managers ensures Cleared(s.managers[k], t.managers[k], Gone(s.registry[i..], w, k)) {
      GoneFirst(s.registry[i..], w, k);
      NothingCleared(s.managers[k]);
      ClearedTwice(s.managers[k], s1.managers[k], t.managers[k],
                   if e.manager == k then {e.handle} else {}, Gone(r[i..], w, k));
    }
  }

  /** closeClientDevice, release and handleCrash: the registry loses exactly the matching entries,
      whatever the HAL answers; and when its answers and the display's are good, every manager loses
      exactly the matching handles, from its handles, its priorities and its streaming list, and every
      other handle keeps its state, priority and place in the streaming list. */
  lemma TeardownIsExact<K>(s: System<K>, w: Whose, answers: nat -> Answers, calm: iset<string>)
    requires Healthy(s, calm)
    ensures Teardown(s, 0, w, answers).registry == Remaining(s.registry, w)
    ensures (forall n :: Willing(answers(n))) ==> AllCleared(s, Teardown(s, 0, w, answers), s.registry, w)
  {
    assert s.registry[0..] == s.registry;
    TeardownRegistry(s, 0, w, answers);
    if forall n :: Willing(answers(n)) {
      TeardownClears(s, 0, w, answers, calm);
    }
  }

  /** Everyone is everyone. */
  lemma {:induction false} NobodyRemains<K>(r: seq<Entry<K>>)
    ensures Remaining(r, Everyone) == []
  {
    if r != [] {
      NobodyRemains(r[1..]);
    }
  }

  // ---- the device map ----

  /** At most device `id` was marked closed. */
  predicate AtMostCloses(ds: DeviceMap, es: DeviceMap, id: int) {
    es == ds || es == SetStatus(ds, id, false)
  }

  lemma ClosesTwice(ds: DeviceMap, es: DeviceMap, fs: DeviceMap, id: int)
    requires AtMostCloses(ds, es, id) && AtMostCloses(es, fs, id)
    ensures AtMostCloses(ds, fs, id)
  {
  }

  lemma StoppedKeys(v: Vdm, ds: DeviceMap, h: int, a: Answers)
    requires Sound(v)
    ensures SameKeys(v, Stopped(v, ds, h, a))
  {
    hide StopCapture, StopCamera, Sound;
    StopCaptureSound(v, ds, h, true, a);
    StopCameraSound(StopCapture(v, ds, h, true, a).vdm, ds, h, a);
  }

  lemma CloseTouchesOwnDevice(v: Vdm, ds: DeviceMap, h: int, a: Answers)
    ensures var es := Close(v, ds, h, a).devices;
            es == ds || (h in v.handles && es == SetStatus(ds, v.handles[h].deviceId, false))
  {
  }

  /** Stopping and closing an entry may mark the entry's device closed and changes no other status. */
  lemma StopAndCloseTouches<K>(s: System<K>, e: Entry<K>, a: Answers, calm: iset<string>)
    requires Healthy(s, calm) && e in s.registry
    ensures AtMostCloses(s.devices, StopAndClose(s, e, a).devices, e.deviceId)
  {
    hide StopAll, Close, Stopped, Sound;
    assert Served(s, e, calm) && Sound(s.managers[e.manager]);
    StopAllIsLocal(s, e, a, calm);
    var u := Stopped(s.managers[e.manager], s.devices, e.handle, a);
    StoppedKeys(s.managers[e.manager], s.devices, e.handle, a);
    CloseTouchesOwnDevice(u, s.devices, e.handle, a);
  }

  /** release: whatever the answers, at most the released device is marked closed. */
  lemma {:induction false} ReleaseTouches<K>(s: System<K>, i: nat, id: int, answers: nat -> Answers, calm: iset<string>)
    requires Healthy(s, calm)
    ensures AtMostCloses(s.devices, Teardown(s, i, OfDevice(id), answers).devices, id)
    decreases |s.registry| - i
  {
    if i < |s.registry| {
      hide StopAndClose, Healthy, Teardown, AtMostCloses;
      TeardownRound(s, i, OfDevice(id), answers);
      if Selected(OfDevice(id), s.registry[i]) {
        var a := answers(|s.registry| - 1 - i);
        var s1 := StopAndClose(s, s.registry[i], a);
        var t := s1.(registry := RemoveAt(s.registry, i));
        RoundHealthy(s, i, a, calm);
        StopAndCloseTouches(s, s.registry[i], a, calm);
        ReleaseTouches(t, i, id, answers, calm);
        ClosesTwice(s.devices, s1.devices, Teardown(t, i, OfDevice(id), answers).devices, id);
      } else {
        ReleaseTouches(s, i + 1, id, answers, calm);
      }
    }
  }

  lemma {:induction false} RemainingAre<K>(r: seq<Entry<K>>, w: Whose, e: Entry<K>)
    ensures e in Remaining(r, w) <==> e in r && !Selected(w, e)
  {
    if r != [] {
      RemainingAre(r[1..], w, e);
      assert r == [r[0]] + r[1..];
    }
  }
}
