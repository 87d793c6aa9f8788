/** A continuous capture in the HAL and the list of handles that share it: what a stop does, when the two agree,
    and the calls after which they do not. */
module CaptureRuns {
  import opened DeviceManager
  import opened VirtualDevice
  import opened VirtualDeviceRuns

  // ---- one stop ----

  predicate MayStop(v: Vdm, ds: DeviceMap, h: int) {
    h in v.handles && IsOpen(ds, v.handles[h].deviceId) && h in v.captures
  }

  lemma {:induction false} EraseFirstTakesOne(s: seq<int>, x: int)
    requires x in s
    ensures multiset(EraseFirst(s, x)) == multiset(s) - multiset{x}
  {
    assert s == [s[0]] + s[1..];
    if s[0] != x {
      EraseFirstTakesOne(s[1..], x);
    }
  }

  /** A stop that is allowed takes one occurrence of the handle off the list. It asks the HAL to stop exactly if
      that was the whole list and the stop is requested; then the HAL's answer is the code, and only a refusal
      leaves the capture marked as being in progress. */
  lemma StopTakesOne(v: Vdm, ds: DeviceMap, h: int, request: bool, a: Answers)
    requires MayStop(v, ds, h)
    ensures var o := StopCapture(v, ds, h, request, a);
            var last := v.captures == [h];
            && multiset(o.vdm.captures) == multiset(v.captures) - multiset{h}
            && o.vdm.hal.calls == v.hal.calls + (if last && request then [HalStopCapture(h)] else [])
            && o.code == (if last && request then a.stopCapture else OK)
            && o.vdm.capturing == (v.capturing && !(last && o.code == OK))
            && o.vdm.hal.capturing == (v.hal.capturing && !(last && request && a.stopCapture == OK))
  {
    EraseFirstTakesOne(v.captures, h);
    assert |v.captures| == 1 ==> v.captures == [h];
  }

  // ---- agreement ----

  /** A continuous capture runs in the HAL, and is believed to run, exactly while some handle is on the list. */
  predicate CaptureInStep(v: Vdm) {
    && (v.capturing <==> v.captures != [])
    && (v.hal.capturing <==> v.captures != [])
  }

  /** The call empties the list without the HAL stopping, or ends the HAL with handles on the list. */
  predicate Strays(v: Vdm, ds: DeviceMap, op: Op, a: Answers) {
    match op
    case DoStopCapture(h, request) => MayStop(v, ds, h) && v.captures == [h] && !(request && a.stopCapture == OK)
    case DoClose(h) =>
      && h in v.priority && h in v.handles && v.handles[h].state == Opened && IsOpen(ds, v.handles[h].deviceId)
      && |v.priority| == 1 && a.close == OK && a.destroyHal == OK && v.captures != []
    case _ => false
  }

  lemma StartCaptureInStep(v: Vdm, ds: DeviceMap, h: int, f: Format, continuous: bool, a: Answers)
    requires CaptureInStep(v)
    ensures CaptureInStep(StartCapture(v, ds, h, f, continuous, a).vdm)
  {
  }

  lemma StopCaptureInStep(v: Vdm, ds: DeviceMap, h: int, request: bool, a: Answers)
    requires CaptureInStep(v)
    ensures CaptureInStep(StopCapture(v, ds, h, request, a).vdm) <==> !Strays(v, ds, DoStopCapture(h, request), a)
  {
    if MayStop(v, ds, h) {
      StopTakesOne(v, ds, h, request, a);
      EraseFirstShrinks(v.captures, h);
      assert |v.captures| == 1 ==> v.captures == [h];
    }
  }

  lemma CloseInStep(v: Vdm, ds: DeviceMap, h: int, a: Answers)
    requires CaptureInStep(v)
    ensures CaptureInStep(Close(v, ds, h, a).vdm) <==> !Strays(v, ds, DoClose(h), a)
  {
  }

  /** Other calls do not touch captures. */
  predicate SameCaptures(v: Vdm, u: Vdm) {
    && u.capturing == v.capturing && u.captures == v.captures
    && u.hal.capturing == v.hal.capturing && u.hal.noted == v.hal.noted
  }

  predicate OffCapture(c: HalCall) {
    !c.HalStartCapture? && !c.HalStopCapture? && !c.DestroyHal?
  }

  lemma AskSameCaptures(v: Vdm, c: HalCall, answer: Code)
    requires OffCapture(c)
    ensures SameCaptures(v, Ask(v, c, answer))
  {
  }

  lemma StartCameraSameCaptures(v: Vdm, ds: DeviceMap, h: int, a: Answers)
    ensures SameCaptures(v, StartCamera(v, ds, h, a).vdm)
  {
    var v1 := if v.streaming == [] then Ask(v, HalStartPreview, a.startPreview) else v;
    AskSameCaptures(v, HalStartPreview, a.startPreview);
    AskSameCaptures(v1, AddClient(h), a.addClient);
    hide Ask;
  }

  lemma StopCameraSameCaptures(v: Vdm, ds: DeviceMap, h: int, a: Answers)
    ensures SameCaptures(v, StopCamera(v, ds, h, a).vdm)
  {
    var v1 := Ask(v, RemoveClient(h), a.removeClient);
    AskSameCaptures(v, RemoveClient(h), a.removeClient);
    AskSameCaptures(v1, HalStopPreview, a.stopPreview);
    hide Ask, EraseFirst;
  }

  lemma CameraSameCaptures(v: Vdm, ds: DeviceMap, h: int, a: Answers)
    ensures SameCaptures(v, StartCamera(v, ds, h, a).vdm) && SameCaptures(v, StopCamera(v, ds, h, a).vdm)
  {
    StartCameraSameCaptures(v, ds, h, a);
    StopCameraSameCaptures(v, ds, h, a);
  }

  lemma PreviewSameCaptures(v: Vdm, ds: DeviceMap, h: int, window: string, a: Answers)
    ensures SameCaptures(v, StartPreview(v, ds, h, window, a).vdm)
  {
    hide StartCamera, StopCamera;
    var o := StartCamera(v, ds, h, a);
    CameraSameCaptures(v, ds, h, a);
    CameraSameCaptures(o.vdm, o.devices, h, a);
  }

  lemma OpenSameCaptures(v: Vdm, ds: DeviceMap, devid: int, apppriority: string, a: Answers)
    ensures SameCaptures(v, Open(v, ds, devid, apppriority, a).vdm)
  {
    AskSameCaptures(v, CreateHal, a.createHal);
    AskSameCaptures(Ask(v, CreateHal, a.createHal), HalOpen, a.open);
    hide FirstFree, HasPrimary, EffectivePriority, Ask;
  }

  lemma SettingsSameCaptures(v: Vdm, ds: DeviceMap, h: int, f: Format, a: Answers)
    ensures SameCaptures(v, SetFormat(v, ds, h, f, a).vdm) && SameCaptures(v, SetProperty(v, ds, h, a).vdm)
  {
  }

  /** A call keeps list and HAL together exactly if it does not stray. */
  lemma StepCaptureInStep(v: Vdm, ds: DeviceMap, op: Op, a: Answers)
    requires CaptureInStep(v)
    ensures CaptureInStep(Step(v, ds, op, a).vdm) <==> !Strays(v, ds, op, a)
  {
    hide Open, Close, StartCamera, StopCamera, StartPreview, StartCapture, StopCapture, SetFormat, SetProperty;
    match op
    case DoOpen(devid, apppriority) => OpenSameCaptures(v, ds, devid, apppriority, a);
    case DoClose(h) => CloseInStep(v, ds, h, a);
    case DoStartCamera(h) => CameraSameCaptures(v, ds, h, a);
    case DoStopCamera(h) => CameraSameCaptures(v, ds, h, a);
    case DoStartPreview(h, window) => PreviewSameCaptures(v, ds, h, window, a);
    case DoStopPreview(h) => CameraSameCaptures(v, ds, h, a);
    case DoStartCapture(h, f, continuous) => StartCaptureInStep(v, ds, h, f, continuous, a);
    case DoStopCapture(h, request) => StopCaptureInStep(v, ds, h, request, a);
    case DoSetFormat(h, f) => SettingsSameCaptures(v, ds, h, f, a);
    case DoSetProperty(h) => SettingsSameCaptures(v, ds, h, v.format, a);
  }

  // ---- faults ----

  /** Every handle on the list is there once, is open, and was noted by the proxy. */
  ghost predicate AllNoted(v: Vdm, ds: DeviceMap) {
    && NoDuplicates(v.captures)
    && forall h :: h in v.captures ==> h in v.hal.noted && MayStop(v, ds, h)
  }

  function Count(s: seq<int>, x: int): nat {
    multiset(s)[x]
  }

  /** One unasked stop. */
  lemma StopOneTakes(v: Vdm, ds: DeviceMap, h: int, a: Answers)
    requires v.capturing <==> v.captures != []
    ensures var u := StopCapture(v, ds, h, false, a).vdm;
            && u.handles == v.handles && u.hal == v.hal
            && (u.capturing <==> u.captures != [])
            && forall x :: Count(u.captures, x) == Count(v.captures, x) - if x == h && MayStop(v, ds, h) then 1 else 0
  {
    if MayStop(v, ds, h) {
      StopTakesOne(v, ds, h, false, a);
      EraseFirstShrinks(v.captures, h);
      assert |v.captures| == 1 ==> v.captures == [h];
    }
  }

  /** What a fault leaves on the list. */
  lemma {:induction false} StopEachTakes(v: Vdm, ds: DeviceMap, hs: seq<int>, a: Answers)
    requires NoDuplicates(hs) && (v.capturing <==> v.captures != [])
    ensures var u := StopEach(v, ds, hs, a);
            && u.handles == v.handles && u.hal == v.hal
            && (u.capturing <==> u.captures != [])
            && forall x :: Count(u.captures, x) == Count(v.captures, x) - if x in hs && MayStop(v, ds, x) then 1 else 0
  {
    if hs != [] {
      var rest, h := hs[..|hs| - 1], hs[|hs| - 1];
      StopEachTakes(v, ds, rest, a);
      var w := StopEach(v, ds, rest, a);
      hide StopCapture, StopEach;
      StopOneTakes(w, ds, h, a);
      assert hs == rest + [h] && h !in rest;
      assert Count(w.captures, h) == Count(v.captures, h);
      assert MayStop(w, ds, h) <==> MayStop(v, ds, h);
    }
  }

  /** The proxy notes a handle once, when a continuous capture is asked for with it, until it is asked to stop. */
  lemma {:induction false} NotedOnce(noted: seq<int>, c: HalCall)
    requires NoDuplicates(noted)
    ensures NoDuplicates(Noted(noted, c))
    ensures forall x :: x in Noted(noted, c) <==>
              (c.HalStartCapture? && c.who == x && c.continuous) || (x in noted && c != HalStopCapture(x))
  {
    if c.HalStopCapture? {
      EraseFirstOf(noted, c.who);
    }
  }

  /** A fault leaves the list and the HAL together exactly if every handle on the list is there once, open, and
      noted; only the one that started the capture is. */
  lemma FaultInStep(v: Vdm, ds: DeviceMap, a: Answers)
    requires CaptureInStep(v) && NoDuplicates(v.hal.noted)
    ensures CaptureInStep(CaptureFault(v, ds, a)) <==> AllNoted(v, ds)
  {
    var w := v.(hal := v.hal.(capturing := false));
    var u := CaptureFault(v, ds, a);
    StopEachTakes(w, ds, v.hal.noted, a);
    if AllNoted(v, ds) {
      if u.captures != [] {
        var x := u.captures[0];
        assert Count(u.captures, x) > 0;
        assert x in v.captures;
        OnceOnly(v.captures, x);
        assert false;
      }
    }
    if u.captures == [] {
      EmptiedIsNoted(v, ds);
    }
  }

  lemma {:induction false} OnceOnly(s: seq<int>, x: int)
    requires NoDuplicates(s)
    ensures Count(s, x) <= 1
  {
    if s != [] {
      assert s == [s[0]] + s[1..];
      OnceOnly(s[1..], x);
      assert Count(s[1..], s[0]) == 0;
    }
  }

  lemma TwiceCounts(s: seq<int>, i: nat, j: nat)
    requires i < j < |s| && s[i] == s[j]
    ensures Count(s, s[i]) >= 2
  {
    assert s == s[..j] + s[j..];
    assert s[i] in s[..j] && s[j] in s[j..];
  }

  lemma EmptiedIsNoted(v: Vdm, ds: DeviceMap)
    requires forall x :: Count(v.captures, x) == if x in v.hal.noted && MayStop(v, ds, x) then 1 else 0
    ensures AllNoted(v, ds)
  {
    forall i, j | 0 <= i < j < |v.captures| ensures v.captures[i] != v.captures[j] {
      if v.captures[i] == v.captures[j] {
        TwiceCounts(v.captures, i, j);
      }
    }
  }

  // ---- runs ----

  lemma StartNotedOnce(v: Vdm, ds: DeviceMap, h: int, f: Format, flag: bool, a: Answers)
    requires NoDuplicates(v.hal.noted)
    ensures NoDuplicates(StartCapture(v, ds, h, f, flag, a).vdm.hal.noted)
  {
    hide HasPrimary, PriorityOf, SameShape;
    var (v1, f1) := UpdateFormat(v, f, h);
    assert v1.hal == v.hal;
    hide UpdateFormat, NoDuplicates;
    NotedOnce(v.hal.noted, HalStartCapture(h, f1, flag));
    hide Noted;
  }

  lemma StopNotedOnce(v: Vdm, ds: DeviceMap, h: int, flag: bool, a: Answers)
    requires NoDuplicates(v.hal.noted)
    ensures NoDuplicates(StopCapture(v, ds, h, flag, a).vdm.hal.noted)
  {
    NotedOnce(v.hal.noted, HalStopCapture(h));
    hide NoDuplicates, Noted, EraseFirst;
  }

  lemma CloseNotes(v: Vdm, ds: DeviceMap, h: int, a: Answers)
    ensures Close(v, ds, h, a).vdm.hal.noted == v.hal.noted
  {
  }

  lemma StepNotedOnce(v: Vdm, ds: DeviceMap, op: Op, a: Answers)
    requires NoDuplicates(v.hal.noted)
    ensures NoDuplicates(Step(v, ds, op, a).vdm.hal.noted)
  {
    hide Open, Close, StartCamera, StopCamera, StartPreview, StartCapture, StopCapture, SetFormat, SetProperty;
    hide NoDuplicates;
    match op
    case DoOpen(devid, apppriority) => OpenSameCaptures(v, ds, devid, apppriority, a);
    case DoClose(h) => CloseNotes(v, ds, h, a);
    case DoStartCamera(h) => CameraSameCaptures(v, ds, h, a);
    case DoStopCamera(h) => CameraSameCaptures(v, ds, h, a);
    case DoStartPreview(h, window) => PreviewSameCaptures(v, ds, h, window, a);
    case DoStopPreview(h) => CameraSameCaptures(v, ds, h, a);
    case DoStartCapture(h, f, continuous) => StartNotedOnce(v, ds, h, f, continuous, a);
    case DoStopCapture(h, request) => StopNotedOnce(v, ds, h, request, a);
    case DoSetFormat(h, f) => SettingsSameCaptures(v, ds, h, f, a);
    case DoSetProperty(h) => SettingsSameCaptures(v, ds, h, v.format, a);
  }

  /** A call of a client, or the HAL giving up a continuous capture. */
  datatype Happening =
    | Called(op: Op, devices: DeviceMap, answers: Answers)
    | Faulted(devices: DeviceMap, answers: Answers)

  function After(v: Vdm, e: Happening): Vdm {
    match e
    case Called(op, ds, a) => Step(v, ds, op, a).vdm
    case Faulted(ds, a) => CaptureFault(v, ds, a)
  }

  function RunAll(v: Vdm, events: seq<Happening>): Vdm {
    if events == [] then v else After(RunAll(v, events[..|events| - 1]), events[|events| - 1])
  }

  ghost predicate GoesAstray(v: Vdm, e: Happening) {
    match e
    case Called(op, ds, a) => Strays(v, ds, op, a)
    case Faulted(ds, a) => !AllNoted(v, ds)
  }

  lemma NextInStep(v: Vdm, e: Happening)
    requires CaptureInStep(v) && NoDuplicates(v.hal.noted)
    ensures NoDuplicates(After(v, e).hal.noted)
    ensures CaptureInStep(After(v, e)) <==> !GoesAstray(v, e)
  {
    hide CaptureInStep, Step, CaptureFault, AllNoted;
    match e
    case Called(op, ds, a) =>
      StepCaptureInStep(v, ds, op, a);
      StepNotedOnce(v, ds, op, a);
    case Faulted(ds, a) =>
      FaultInStep(v, ds, a);
      NothingNoted(v, ds, a);
  }

  lemma NothingNoted(v: Vdm, ds: DeviceMap, a: Answers)
    ensures CaptureFault(v, ds, a).hal.noted == []
  {
    hide StopEach;
  }

  /** The list and the HAL are together after each of the events. */
  ghost predicate AlwaysInStep(events: seq<Happening>) {
    CaptureInStep(RunAll(INITIAL, events)) && (events == [] || AlwaysInStep(events[..|events| - 1]))
  }

  ghost predicate NoneAstray(events: seq<Happening>) {
    events == [] ||
    (NoneAstray(events[..|events| - 1]) && !GoesAstray(RunAll(INITIAL, events[..|events| - 1]), events[|events| - 1]))
  }

  /** From a new manager, through any calls, answers and faults: the capture list and the HAL are together at every
      moment exactly if no event goes astray. */
  lemma {:induction false} RunCaptureInStep(events: seq<Happening>)
    ensures AlwaysInStep(events) <==> NoneAstray(events)
    ensures NoneAstray(events) ==> NoDuplicates(RunAll(INITIAL, events).hal.noted)
  {
    if events != [] {
      hide GoesAstray, After, NoDuplicates, CaptureInStep;
      RunCaptureInStep(events[..|events| - 1]);
      if NoneAstray(events[..|events| - 1]) {
        NextInStep(RunAll(INITIAL, events[..|events| - 1]), events[|events| - 1]);
      }
    }
  }

  // ---- and when they are not together ----

  /** A capture that is believed to run swallows every further start. */
  lemma StartIsSwallowed(v: Vdm, ds: DeviceMap, h: int, f: Format, a: Answers)
    requires v.capturing && h in v.handles && IsOpen(ds, v.handles[h].deviceId)
    ensures var o := StartCapture(v, ds, h, f, true, a); o.code == OK && o.vdm.hal == v.hal
  {
  }

  /** While they are together, a continuous capture that was granted runs. */
  lemma GrantedCaptureRuns(v: Vdm, ds: DeviceMap, h: int, f: Format, a: Answers)
    requires CaptureInStep(v) && StartCapture(v, ds, h, f, true, a).code == OK
    ensures var u := StartCapture(v, ds, h, f, true, a).vdm; u.hal.capturing && h in u.captures
  {
  }

  const ALL_WELL: Answers := Answers(OK, OK, OK, OK, OK, OK, OK, OK, OK, OK, OK, OK, true, true, [])

  /** Handles 7 and 8 of one open device. */
  function Shared(captures: seq<int>, capturing: bool, noted: seq<int>, running: bool): Vdm {
    INITIAL.(handles := map[7 := DevState(1, Opened), 8 := DevState(1, Opened)],
             priority := map[7 := PRIMARY, 8 := SECONDARY],
             captures := captures, capturing := capturing,
             hal := Hal(false, {}, running, noted, []))
  }

  /** Two handles share a capture and the HAL gives up: only the handle that started it was noted. The other stays
      on the list, the capture is believed to run, and a new start is granted without the HAL being asked. */
  lemma OneStaysBehind(ds: DeviceMap, f: Format)
    requires IsOpen(ds, 1)
    ensures var v := Shared([], false, [], false);
            var v1 := StartCapture(v, ds, 7, f, true, ALL_WELL).vdm;
            var v2 := StartCapture(v1, ds, 8, f, true, ALL_WELL).vdm;
            var u := CaptureFault(v2, ds, ALL_WELL);
            && CaptureInStep(v) && CaptureInStep(v1) && CaptureInStep(v2)
            && u.captures == [8] && u.capturing && !u.hal.capturing
            && var o := StartCapture(u, ds, 8, f, true, ALL_WELL); o.code == OK && !o.vdm.hal.capturing
  {
    BothCapture(ds, f);
    var v2 := StartCapture(StartCapture(Shared([], false, [], false), ds, 7, f, true, ALL_WELL).vdm,
                           ds, 8, f, true, ALL_WELL).vdm;
    FirstIsStopped(v2, ds);
    StartIsSwallowed(CaptureFault(v2, ds, ALL_WELL), ds, 8, f, ALL_WELL);
    hide StartCapture, CaptureFault;
  }

  lemma BothCapture(ds: DeviceMap, f: Format)
    requires IsOpen(ds, 1)
    ensures var v1 := StartCapture(Shared([], false, [], false), ds, 7, f, true, ALL_WELL).vdm;
            var v2 := StartCapture(v1, ds, 8, f, true, ALL_WELL).vdm;
            && CaptureInStep(v1) && v2.captures == [7, 8] && v2.capturing
            && v2.hal.capturing && v2.hal.noted == [7] && v2.handles == Shared([], false, [], false).handles
  {
    hide HasPrimary, PriorityOf, SameShape;
  }

  lemma FirstIsStopped(v: Vdm, ds: DeviceMap)
    requires IsOpen(ds, 1) && v.captures == [7, 8] && v.capturing && v.hal.noted == [7]
    requires v.handles == Shared([], false, [], false).handles
    ensures var u := CaptureFault(v, ds, ALL_WELL);
            u.captures == [8] && u.capturing && !u.hal.capturing && u.handles == v.handles
  {
    var w := v.(hal := v.hal.(capturing := false));
    assert [7][..0] == [] && [7, 8][1..] == [8];
    assert StopEach(w, ds, [], ALL_WELL) == w;
    assert StopEach(w, ds, [7], ALL_WELL) == StopCapture(w, ds, 7, false, ALL_WELL).vdm;
  }
}
