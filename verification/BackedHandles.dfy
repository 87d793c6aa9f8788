/** What one manager keeps when its calls come through the registry: handles that stream are registered,
    registered handles are backed by an open device, and the HAL is closed only for the last of them. */
module BackedHandles {
  import opened Wrappers
  import opened DeviceManager
  import opened VirtualDevice
  import opened VirtualDeviceRuns

  /** A physical close is timely: nobody streams, and only the closing handle was registered. */
  predicate Timely(c: HalCall) {
    c.HalClose? ==> c.active == [] && c.registered == {c.who}
  }

  ghost predicate TimelyCloses(calls: seq<HalCall>) {
    forall i :: 0 <= i < |calls| ==> Timely(calls[i])
  }

  ghost predicate StreamersRegistered(v: Vdm) {
    forall h :: h in v.streaming ==> h in v.priority
  }

  ghost predicate Sound(v: Vdm) {
    Consistent(v) && StreamersRegistered(v) && TimelyCloses(v.hal.calls)
  }

  /** Every registered handle belongs to an open device at `node`. */
  ghost predicate Backed(v: Vdm, ds: DeviceMap, node: string) {
    forall h :: h in v.priority ==>
      h in v.handles && IsOpen(ds, v.handles[h].deviceId) && NodeOf(ds, v.handles[h].deviceId) == node
  }

  /** Only the status of devices at `node` changed. */
  ghost predicate SameElsewhere(ds: DeviceMap, es: DeviceMap, node: string) {
    forall id :: NodeOf(es, id) == NodeOf(ds, id) && (NodeOf(ds, id) != node ==> IsOpen(es, id) == IsOpen(ds, id))
  }

  /** A handle that is new, or newly without a registration, is the one drawn just now. */
  ghost predicate NoNewLoose(v: Vdm, u: Vdm, drawn: Option<int>) {
    && (forall h :: h in u.handles && h !in v.handles ==> drawn == Some(h))
    && (forall h :: h in u.handles && h !in u.priority ==> (h in v.handles && h !in v.priority) || drawn == Some(h))
  }

  /** A handle that stays registered keeps its device, and a device that was open for it is still open. */
  ghost predicate StillOpen(v: Vdm, ds: DeviceMap, u: Vdm, es: DeviceMap) {
    forall h :: h in u.priority && h in v.priority && h in v.handles ==>
      && h in u.handles && u.handles[h].deviceId == v.handles[h].deviceId
      && (IsOpen(ds, v.handles[h].deviceId) ==> IsOpen(es, v.handles[h].deviceId))
  }

  /** The handle a start is called with is registered, if it is known at all. */
  predicate StartsRegistered(v: Vdm, op: Op) {
    (op.DoStartCamera? || op.DoStartPreview?) && op.h in v.handles ==> op.h in v.priority
  }

  /** What a call on the manager at `node` keeps; `backed` says that every registered handle was backed
      before. */
  ghost predicate Kept(v: Vdm, ds: DeviceMap, u: Vdm, es: DeviceMap, node: string, drawn: Option<int>, backed: bool) {
    && Sound(u) && NoNewLoose(v, u, drawn) && StillOpen(v, ds, u, es) && SameElsewhere(ds, es, node)
    && (backed ==> Backed(u, es, node))
  }

  // ---- the log ----

  lemma AskTimely(v: Vdm, c: HalCall, answer: Code)
    requires TimelyCloses(v.hal.calls) && Timely(c)
    ensures TimelyCloses(Ask(v, c, answer).hal.calls)
  {
  }

  /** A call that keeps the books' keys: handles, their devices, and priorities. */
  ghost predicate SameKeys(v: Vdm, u: Vdm) {
    && u.handles.Keys == v.handles.Keys && u.priority == v.priority
    && forall h :: h in v.handles ==> u.handles[h].deviceId == v.handles[h].deviceId
  }

  lemma SameKeysKept(v: Vdm, ds: DeviceMap, u: Vdm, node: string, backed: bool)
    requires (backed ==> Backed(v, ds, node)) && SameKeys(v, u) && Sound(u)
    ensures Kept(v, ds, u, ds, node, None, backed)
  {
  }

  lemma StartCameraTimely(v: Vdm, ds: DeviceMap, h: int, a: Answers)
    requires TimelyCloses(v.hal.calls)
    ensures TimelyCloses(StartCamera(v, ds, h, a).vdm.hal.calls)
  {
  }

  lemma StopCameraTimely(v: Vdm, ds: DeviceMap, h: int, a: Answers)
    requires TimelyCloses(v.hal.calls)
    ensures TimelyCloses(StopCamera(v, ds, h, a).vdm.hal.calls)
  {
  }

  lemma StartCameraBooks(v: Vdm, ds: DeviceMap, h: int, a: Answers)
    ensures var o := StartCamera(v, ds, h, a);
            && SameKeys(v, o.vdm)
            && (o.vdm.streaming == v.streaming || (h in v.handles && o.vdm.streaming == v.streaming + [h]))
  {
  }

  lemma StartCameraSound(v: Vdm, ds: DeviceMap, h: int, a: Answers)
    requires Sound(v) && (h in v.handles ==> h in v.priority)
    ensures Sound(StartCamera(v, ds, h, a).vdm) && SameKeys(v, StartCamera(v, ds, h, a).vdm)
  {
    hide StartCamera, Consistent, TimelyCloses;
    StartCameraKeeps(v, ds, h, a);
    StartCameraTimely(v, ds, h, a);
    StartCameraBooks(v, ds, h, a);
  }

  lemma StopCameraSound(v: Vdm, ds: DeviceMap, h: int, a: Answers)
    requires Sound(v)
    ensures Sound(StopCamera(v, ds, h, a).vdm) && SameKeys(v, StopCamera(v, ds, h, a).vdm)
  {
    StopCameraKeeps(v, ds, h, a);
    StopCameraTimely(v, ds, h, a);
    EraseFirstOf(v.streaming, h);
  }

  lemma StartPreviewSound(v: Vdm, ds: DeviceMap, h: int, window: string, a: Answers)
    requires Sound(v) && (h in v.handles ==> h in v.priority)
    ensures Sound(StartPreview(v, ds, h, window, a).vdm) && SameKeys(v, StartPreview(v, ds, h, window, a).vdm)
  {
    if window != "" {
      var o := StartCamera(v, ds, h, a);
      StartCameraSound(v, ds, h, a);
      StartPreviewKeeps(v, ds, h, window, a);
      if o.code == OK && !a.displayStart {
        StopCameraSound(o.vdm, o.devices, h, a);
      }
    }
  }

  lemma StartCaptureTimely(v: Vdm, ds: DeviceMap, h: int, f: Format, continuous: bool, a: Answers)
    requires TimelyCloses(v.hal.calls)
    ensures TimelyCloses(StartCapture(v, ds, h, f, continuous, a).vdm.hal.calls)
  {
    hide Noted, HasPrimary, PriorityOf, SameShape;
  }

  lemma StartCaptureBooks(v: Vdm, ds: DeviceMap, h: int, f: Format, continuous: bool, a: Answers)
    ensures var u := StartCapture(v, ds, h, f, continuous, a).vdm;
            u.handles == v.handles && u.priority == v.priority && u.streaming == v.streaming
  {
  }

  lemma StartCaptureSound(v: Vdm, ds: DeviceMap, h: int, f: Format, continuous: bool, a: Answers)
    requires Sound(v)
    ensures var u := StartCapture(v, ds, h, f, continuous, a).vdm; Sound(u) && SameKeys(v, u)
  {
    hide StartCapture, Consistent, TimelyCloses;
    StartCaptureKeeps(v, ds, h, f, continuous, a);
    StartCaptureTimely(v, ds, h, f, continuous, a);
    StartCaptureBooks(v, ds, h, f, continuous, a);
  }

  lemma StopCaptureSound(v: Vdm, ds: DeviceMap, h: int, request: bool, a: Answers)
    requires Sound(v)
    ensures var u := StopCapture(v, ds, h, request, a).vdm; Sound(u) && SameKeys(v, u)
  {
    StopCaptureKeeps(v, ds, h, request, a);
    AskTimely(v, HalStopCapture(h), a.stopCapture);
  }

  lemma SettingsTimely(v: Vdm, ds: DeviceMap, h: int, f: Format, a: Answers)
    requires TimelyCloses(v.hal.calls)
    ensures TimelyCloses(SetFormat(v, ds, h, f, a).vdm.hal.calls)
    ensures TimelyCloses(SetProperty(v, ds, h, a).vdm.hal.calls)
  {
    AskTimely(v, HalSetFormat(h, f), a.setFormat);
    AskTimely(v, HalSetProperty(h), a.setProperty);
  }

  lemma SettingsBooks(v: Vdm, ds: DeviceMap, h: int, f: Format, a: Answers)
    ensures var u := SetFormat(v, ds, h, f, a).vdm;
            u.handles == v.handles && u.priority == v.priority && u.streaming == v.streaming
    ensures var u := SetProperty(v, ds, h, a).vdm;
            u.handles == v.handles && u.priority == v.priority && u.streaming == v.streaming
  {
  }

  lemma SettingsSound(v: Vdm, ds: DeviceMap, h: int, f: Format, a: Answers)
    requires Sound(v)
    ensures var u := SetFormat(v, ds, h, f, a).vdm; Sound(u) && SameKeys(v, u)
    ensures var u := SetProperty(v, ds, h, a).vdm; Sound(u) && SameKeys(v, u)
  {
    hide SetFormat, SetProperty, Consistent, TimelyCloses;
    SettingsKeep(v, ds, h, f, a);
    SettingsTimely(v, ds, h, f, a);
    SettingsBooks(v, ds, h, f, a);
  }

  /** Every call but an open and a close keeps the keys and the device map. */
  lemma CallSound(v: Vdm, ds: DeviceMap, op: Op, a: Answers)
    requires Sound(v) && StartsRegistered(v, op)
    requires !op.DoOpen? && !op.DoClose?
    ensures Sound(Step(v, ds, op, a).vdm) && SameKeys(v, Step(v, ds, op, a).vdm)
  {
    match op
    case DoStartCamera(h) => StartCameraSound(v, ds, h, a);
    case DoStopCamera(h) => StopCameraSound(v, ds, h, a);
    case DoStartPreview(h, window) => StartPreviewSound(v, ds, h, window, a);
    case DoStopPreview(h) => StopCameraSound(v, ds, h, a);
    case DoStartCapture(h, f, continuous) => StartCaptureSound(v, ds, h, f, continuous, a);
    case DoStopCapture(h, request) => StopCaptureSound(v, ds, h, request, a);
    case DoSetFormat(h, f) => SettingsSound(v, ds, h, f, a);
    case DoSetProperty(h) => SettingsSound(v, ds, h, v.format, a);
  }

  lemma CallKeepsDevices(v: Vdm, ds: DeviceMap, op: Op, a: Answers)
    requires !op.DoOpen? && !op.DoClose?
    ensures Step(v, ds, op, a).devices == ds
  {
  }

  lemma CallKept(v: Vdm, ds: DeviceMap, op: Op, a: Answers, node: string, backed: bool)
    requires Sound(v) && (backed ==> Backed(v, ds, node)) && StartsRegistered(v, op)
    requires !op.DoOpen? && !op.DoClose?
    ensures Step(v, ds, op, a).devices == ds
    ensures Kept(v, ds, Step(v, ds, op, a).vdm, ds, node, None, backed)
  {
    hide Step, Sound;
    CallKeepsDevices(v, ds, op, a);
    CallSound(v, ds, op, a);
    SameKeysKept(v, ds, Step(v, ds, op, a).vdm, node, backed);
  }

  // ---- close ----

  lemma LastOne(p: map<int, string>, h: int)
    requires h in p && |p| == 1
    ensures p.Keys == {h}
  {
    assert |p.Keys - {h}| == 0;
  }

  lemma SomethingIn(s: seq<int>) returns (x: int)
    requires s != []
    ensures x in s
  {
    x := s[0];
  }

  lemma TimelyClose(v: Vdm, h: int)
    requires Sound(v) && h in v.priority && |v.priority| == 1
    requires h in v.handles && v.handles[h].state == Opened
    ensures Timely(HalClose(h, v.streaming, v.priority.Keys))
  {
    LastOne(v.priority, h);
    assert h !in v.streaming;
    assert forall x :: x in v.streaming ==> x in v.priority.Keys;
    if v.streaming != [] {
      var x := SomethingIn(v.streaming);
      assert false;
    }
  }

  lemma CloseSound(v: Vdm, ds: DeviceMap, h: int, a: Answers)
    requires Sound(v)
    ensures Sound(Close(v, ds, h, a).vdm)
  {
    var u := Close(v, ds, h, a).vdm;
    CloseKeeps(v, ds, h, a);
    if u.hal.calls != v.hal.calls {
      TimelyClose(v, h);
      var c := HalClose(h, v.streaming, v.priority.Keys);
      AskTimely(v, c, a.close);
      AskTimely(Ask(v, c, a.close), DestroyHal, a.destroyHal);
    }
    assert forall x :: x in u.streaming ==> x in v.streaming && Active(v, x);
  }

  /** The three ways a close leaves the books and the device map. */
  lemma CloseOutcomes(v: Vdm, ds: DeviceMap, h: int, a: Answers)
    ensures var o := Close(v, ds, h, a);
            || (o.vdm.handles == v.handles && o.vdm.priority == v.priority && o.devices == ds)
            || (h in v.priority && h in v.handles && o.vdm.handles == v.handles - {h}
                && o.vdm.priority == v.priority - {h}
                && (o.devices == ds || (|v.priority| == 1 && o.devices == SetStatus(ds, v.handles[h].deviceId, false))))
  {
  }

  lemma CloseKept(v: Vdm, ds: DeviceMap, h: int, a: Answers, node: string, backed: bool)
    requires Sound(v) && (backed ==> Backed(v, ds, node))
    requires h in v.handles && h in v.priority ==> NodeOf(ds, v.handles[h].deviceId) == node
    ensures var o := Close(v, ds, h, a); Kept(v, ds, o.vdm, o.devices, node, None, backed)
  {
    hide Close, Consistent, TimelyCloses, StreamersRegistered;
    CloseSound(v, ds, h, a);
    CloseOutcomes(v, ds, h, a);
    hide Sound;
    if h in v.priority && |v.priority| == 1 {
      LastOne(v.priority, h);
    }
  }

  /** Closing a handle that may be closed asks for the physical close exactly if it is the last one
      registered. If that is refused nothing but the log changes; otherwise the handle is gone from both
      maps, the device is marked closed exactly if the handle was the last one, and what is returned then
      is the answer to destroying the HAL. */
  lemma LastCloseIsPhysical(v: Vdm, ds: DeviceMap, h: int, a: Answers)
    requires h in v.priority && h in v.handles && v.handles[h].state == Opened && IsOpen(ds, v.handles[h].deviceId)
    ensures var o := Close(v, ds, h, a);
            && (|v.priority| == 1 <==> HalClose(h, v.streaming, v.priority.Keys) in o.vdm.hal.calls[|v.hal.calls|..])
            && (if |v.priority| == 1 && a.close != OK then
                  o.code == a.close && o.vdm.(hal := v.hal) == v && o.devices == ds
                else
                  && h !in o.vdm.handles && h !in o.vdm.priority
                  && IsOpen(o.devices, v.handles[h].deviceId) == (|v.priority| != 1)
                  && o.code == (if |v.priority| == 1 then a.destroyHal else OK))
  {
    var o := Close(v, ds, h, a);
    var c := HalClose(h, v.streaming, v.priority.Keys);
    if |v.priority| == 1 {
      assert o.vdm.hal.calls[|v.hal.calls|] == c;
    }
  }

  // ---- open ----

  lemma OpenTimely(v: Vdm, ds: DeviceMap, devid: int, apppriority: string, a: Answers)
    requires TimelyCloses(v.hal.calls)
    ensures TimelyCloses(Open(v, ds, devid, apppriority, a).vdm.hal.calls)
  {
    AskTimely(v, CreateHal, a.createHal);
    AskTimely(Ask(v, CreateHal, a.createHal), HalOpen, a.open);
    var calls := Open(v, ds, devid, apppriority, a).vdm.hal.calls;
    assert calls == v.hal.calls || calls == v.hal.calls + [CreateHal] || calls == v.hal.calls + [CreateHal] + [HalOpen];
  }

  /** What an open does to the books. */
  ghost predicate OpenedAs(v: Vdm, o: OpenOut, devid: int, drawn: Option<int>) {
    && o.vdm.streaming == v.streaming
    && (if o.code == OK then
          && drawn == Some(o.handle) && o.handle !in v.handles && o.handle != INVALID_ID
          && o.vdm.handles == v.handles[o.handle := DevState(devid, Opened)]
          && o.vdm.priority.Keys == v.priority.Keys + {o.handle}
        else
          && o.vdm.priority == v.priority
          && (o.vdm.handles == v.handles
              || (drawn.Some? && o.vdm.handles == v.handles[drawn.value := DevState(devid, Opened)])))
  }

  /** The handle an open would draw. */
  function Drawn(v: Vdm, a: Answers): (h: Option<int>)
    ensures h.Some? ==> h.value !in v.handles && h.value != INVALID_ID
  {
    FirstFree(a.draws, v.handles.Keys)
  }

  lemma OpenDeviceEffect(v: Vdm, ds: DeviceMap, devid: int, a: Answers)
    ensures var o := OpenDevice(v, ds, devid, a);
            && o.vdm.streaming == v.streaming && o.vdm.priority == v.priority
            && (o.code == OK ==> Drawn(v, a) == Some(o.handle))
            && ((o.vdm.handles == v.handles && o.code != OK)
                || (Drawn(v, a).Some? && o.vdm.handles == v.handles[Drawn(v, a).value := DevState(devid, Opened)]))
  {
  }

  lemma OpenEffect(v: Vdm, ds: DeviceMap, devid: int, apppriority: string, a: Answers)
    requires Consistent(v)
    ensures OpenedAs(v, Open(v, ds, devid, apppriority, a), devid, Drawn(v, a))
  {
    hide OpenDevice, HasPrimary, EffectivePriority;
    var o := Open(v, ds, devid, apppriority, a);
    OpenDeviceEffect(v, ds, devid, a);
    if o.code == OK {
      assert o.handle !in v.priority;
    }
  }

  lemma OpenDevices(v: Vdm, ds: DeviceMap, devid: int, apppriority: string, a: Answers)
    ensures var o := Open(v, ds, devid, apppriority, a);
            && (o.devices == ds || o.devices == SetStatus(ds, devid, true))
            && (o.code == OK ==> IsOpen(o.devices, devid))
  {
  }

  lemma OpenKept(v: Vdm, ds: DeviceMap, devid: int, apppriority: string, a: Answers, backed: bool)
    requires Sound(v) && (backed ==> Backed(v, ds, NodeOf(ds, devid)))
    ensures var o := Open(v, ds, devid, apppriority, a);
            Kept(v, ds, o.vdm, o.devices, NodeOf(ds, devid), Drawn(v, a), backed)
  {
    var o := Open(v, ds, devid, apppriority, a);
    hide Open, Consistent, TimelyCloses, Drawn;
    OpenKeeps(v, ds, devid, apppriority, a);
    OpenTimely(v, ds, devid, apppriority, a);
    OpenEffect(v, ds, devid, apppriority, a);
    OpenDevices(v, ds, devid, apppriority, a);
    OpenedLoosens(v, o, devid, Drawn(v, a));
    OpenedBacked(v, ds, o, devid, Drawn(v, a), backed);
  }

  lemma OpenedLoosens(v: Vdm, o: OpenOut, devid: int, drawn: Option<int>)
    requires Sound(v) && OpenedAs(v, o, devid, drawn)
    ensures StreamersRegistered(o.vdm) && NoNewLoose(v, o.vdm, drawn)
  {
    forall h | h in o.vdm.handles && h !in o.vdm.priority
      ensures (h in v.handles && h !in v.priority) || drawn == Some(h)
    {
      assert h !in o.vdm.priority.Keys;
    }
    forall h | h in o.vdm.streaming ensures h in o.vdm.priority {
      assert h in v.priority.Keys;
    }
  }

  lemma OpenedBacked(v: Vdm, ds: DeviceMap, o: OpenOut, devid: int, drawn: Option<int>, backed: bool)
    requires Sound(v) && (backed ==> Backed(v, ds, NodeOf(ds, devid)))
    requires OpenedAs(v, o, devid, drawn) && (drawn.Some? ==> drawn.value !in v.handles)
    requires o.devices == ds || o.devices == SetStatus(ds, devid, true)
    requires o.code == OK ==> IsOpen(o.devices, devid)
    ensures SameElsewhere(ds, o.devices, NodeOf(ds, devid)) && StillOpen(v, ds, o.vdm, o.devices)
    ensures backed ==> Backed(o.vdm, o.devices, NodeOf(ds, devid))
  {
    forall h | h in o.vdm.priority
      ensures h in v.priority || (o.code == OK && h == o.handle)
    {
      assert h in o.vdm.priority.Keys;
    }
  }
}
