/** What every sequence of calls on one manager keeps, whatever the HAL answers and however the device
    status map changes in between. */
module VirtualDeviceRuns {
  import opened Wrappers
  import opened DeviceManager
  import opened VirtualDevice

  ghost predicate Active(v: Vdm, h: int) {
    h in v.handles && (v.handles[h].state.Streaming? || v.handles[h].state.Preview?)
  }

  ghost predicate NoDuplicates(s: seq<int>) {
    forall i, j :: 0 <= i < j < |s| ==> s[i] != s[j]
  }

  /** The streaming list names exactly the active handles, each once. */
  ghost predicate StreamingExact(v: Vdm) {
    && NoDuplicates(v.streaming)
    && forall h :: h in v.streaming <==> Active(v, h)
  }

  ghost predicate OnePrimary(v: Vdm) {
    forall x, y :: x in v.priority && y in v.priority && v.priority[x] == PRIMARY && v.priority[y] == PRIMARY ==> x == y
  }

  ghost predicate Consistent(v: Vdm) {
    && StreamingExact(v)
    && (forall c :: c in v.hal.clients ==> c in v.streaming)
    && v.priority.Keys <= v.handles.Keys
    && OnePrimary(v)
    && (v.captures != [] ==> v.capturing)
    && (forall h :: h in v.handles ==> !v.handles[h].state.Closed? && h != 0 && h != INVALID_ID)
  }

  // ---- lists ----

  lemma {:induction false} EraseFirstOf(s: seq<int>, x: int)
    requires NoDuplicates(s)
    ensures NoDuplicates(EraseFirst(s, x))
    ensures forall y :: y in EraseFirst(s, x) <==> y in s && y != x
  {
    if s == [] {
    } else if s[0] == x {
      assert s == [s[0]] + s[1..];
    } else {
      assert NoDuplicates(s[1..]);
      EraseFirstOf(s[1..], x);
      var rest := EraseFirst(s[1..], x);
      assert s == [s[0]] + s[1..];
      assert s[0] !in s[1..];
      forall i, j | 0 <= i < j < |[s[0]] + rest| ensures ([s[0]] + rest)[i] != ([s[0]] + rest)[j] {
        if i == 0 { assert rest[j - 1] in rest; }
      }
    }
  }

  lemma {:induction false} EraseFirstShrinks(s: seq<int>, x: int)
    requires x in s
    ensures |EraseFirst(s, x)| == |s| - 1
  {
    if s[0] != x {
      assert s == [s[0]] + s[1..];
      EraseFirstShrinks(s[1..], x);
    }
  }

  lemma SomeIn<T>(s: set<T>) returns (x: T)
    requires s != {}
    ensures x in s
  {
    x :| x in s;
  }

  // ---- one call ----

  /** Calls that touch neither handles, priorities nor streaming. */
  lemma SameBooksKeep(v: Vdm, u: Vdm)
    requires Consistent(v)
    requires u.handles == v.handles && u.priority == v.priority && u.streaming == v.streaming
    requires u.hal.clients <= v.hal.clients
    requires u.captures != [] ==> u.capturing
    ensures Consistent(u)
  {
    assert forall x :: Active(u, x) <==> Active(v, x);
  }

  lemma NewHandleKeeps(v: Vdm, devid: int, draws: seq<int>)
    requires Consistent(v)
    ensures Consistent(NewHandle(v, devid, draws).1)
    ensures NewHandle(v, devid, draws).1.priority == v.priority
  {
    var u := NewHandle(v, devid, draws).1;
    assert forall x :: Active(u, x) <==> Active(v, x);
  }

  lemma InsertPriorityKeeps(v: Vdm, h: int, p: string)
    requires Consistent(v) && h in v.handles
    requires p == PRIMARY ==> !HasPrimary(v)
    ensures Consistent(InsertPriority(v, h, p))
  {
    var u := InsertPriority(v, h, p);
    assert forall x :: Active(u, x) <==> Active(v, x);
  }

  lemma OpenKeeps(v: Vdm, ds: DeviceMap, devid: int, apppriority: string, a: Answers)
    requires Consistent(v)
    ensures Consistent(Open(v, ds, devid, apppriority, a).vdm)
  {
    var p := EffectivePriority(v, apppriority);
    if (apppriority == PRIMARY && HasPrimary(v)) || devid !in ds {
    } else if IsOpen(ds, devid) {
      var (h, u) := NewHandle(v, devid, a.draws);
      NewHandleKeeps(v, devid, a.draws);
      if h.Some? {
        InsertPriorityKeeps(u, h.value, p);
      }
    } else {
      var v1 := Ask(Ask(v, CreateHal, a.createHal), HalOpen, a.open);
      SameBooksKeep(v, Ask(v, CreateHal, a.createHal));
      SameBooksKeep(v, v1);
      NewHandleKeeps(v1, devid, a.draws);
      var o := OpenDevice(v, ds, devid, a);
      if o.code == OK {
        assert o.vdm == NewHandle(v1, devid, a.draws).1;
        InsertPriorityKeeps(o.vdm, o.handle, p);
      }
    }
  }

  lemma CloseKeeps(v: Vdm, ds: DeviceMap, h: int, a: Answers)
    requires Consistent(v)
    ensures Consistent(Close(v, ds, h, a).vdm)
  {
    var u := Close(v, ds, h, a).vdm;
    assert forall x :: Active(u, x) <==> Active(v, x);
  }

  /** A handle starts streaming. */
  lemma ActivateKeeps(v: Vdm, h: int, hal: Hal)
    requires Consistent(v) && h in v.handles && v.handles[h].state == Opened
    requires hal.clients <= v.hal.clients + {h}
    ensures var u := SetState(v.(streaming := v.streaming + [h], hal := hal), h, Streaming);
            Consistent(u) && Active(u, h)
  {
    var u := SetState(v.(streaming := v.streaming + [h], hal := hal), h, Streaming);
    assert !Active(v, h) && h !in v.streaming;
    forall i, j | 0 <= i < j < |u.streaming| ensures u.streaming[i] != u.streaming[j] {
      assert u.streaming[i] in v.streaming;
    }
    assert forall x :: Active(u, x) <==> Active(v, x) || x == h;
    assert forall x :: x in u.streaming <==> x in v.streaming || x == h;
  }

  /** A handle stops streaming. */
  lemma DeactivateKeeps(v: Vdm, h: int, hal: Hal)
    requires Consistent(v) && Active(v, h)
    requires hal.clients <= v.hal.clients - {h}
    ensures Consistent(SetState(v.(streaming := EraseFirst(v.streaming, h), hal := hal), h, Opened))
  {
    var u := SetState(v.(streaming := EraseFirst(v.streaming, h), hal := hal), h, Opened);
    EraseFirstOf(v.streaming, h);
    assert forall x :: Active(u, x) <==> Active(v, x) && x != h;
  }

  lemma StartCameraKeeps(v: Vdm, ds: DeviceMap, h: int, a: Answers)
    requires Consistent(v)
    ensures Consistent(StartCamera(v, ds, h, a).vdm)
    ensures StartCamera(v, ds, h, a).code == OK ==> Active(StartCamera(v, ds, h, a).vdm, h)
  {
    var o := StartCamera(v, ds, h, a);
    if o.code == OK {
      ActivateKeeps(v, h, o.vdm.hal);
      assert o.vdm == SetState(v.(streaming := v.streaming + [h], hal := o.vdm.hal), h, Streaming);
    } else {
      SameBooksKeep(v, o.vdm);
    }
  }

  lemma StopCameraKeeps(v: Vdm, ds: DeviceMap, h: int, a: Answers)
    requires Consistent(v)
    ensures Consistent(StopCamera(v, ds, h, a).vdm)
  {
    var o := StopCamera(v, ds, h, a);
    if o.code == OK {
      DeactivateKeeps(v, h, o.vdm.hal);
      assert o.vdm == SetState(v.(streaming := EraseFirst(v.streaming, h), hal := o.vdm.hal), h, Opened);
    } else {
      SameBooksKeep(v, o.vdm);
    }
  }

  lemma SetPreviewKeeps(v: Vdm, h: int)
    requires Consistent(v) && Active(v, h)
    ensures Consistent(SetState(v, h, Preview))
  {
    assert forall x :: Active(SetState(v, h, Preview), x) <==> Active(v, x);
  }

  lemma StartPreviewKeeps(v: Vdm, ds: DeviceMap, h: int, window: string, a: Answers)
    requires Consistent(v)
    ensures Consistent(StartPreview(v, ds, h, window, a).vdm)
  {
    if window != "" {
      var o := StartCamera(v, ds, h, a);
      StartCameraKeeps(v, ds, h, a);
      if o.code == OK {
        if a.displayStart {
          SetPreviewKeeps(o.vdm, h);
        } else {
          StopCameraKeeps(o.vdm, o.devices, h, a);
        }
      }
    }
  }

  lemma StartCaptureKeeps(v: Vdm, ds: DeviceMap, h: int, f: Format, continuous: bool, a: Answers)
    requires Consistent(v)
    ensures Consistent(StartCapture(v, ds, h, f, continuous, a).vdm)
  {
    SameBooksKeep(v, StartCapture(v, ds, h, f, continuous, a).vdm);
  }

  lemma StopCaptureKeeps(v: Vdm, ds: DeviceMap, h: int, request: bool, a: Answers)
    requires Consistent(v)
    ensures Consistent(StopCapture(v, ds, h, request, a).vdm)
  {
  }

  lemma SettingsKeep(v: Vdm, ds: DeviceMap, h: int, f: Format, a: Answers)
    requires Consistent(v)
    ensures Consistent(SetFormat(v, ds, h, f, a).vdm)
    ensures Consistent(SetProperty(v, ds, h, a).vdm)
  {
  }

  lemma StepKeeps(v: Vdm, ds: DeviceMap, op: Op, a: Answers)
    requires Consistent(v)
    ensures Consistent(Step(v, ds, op, a).vdm)
  {
    match op
    case DoOpen(devid, apppriority) => OpenKeeps(v, ds, devid, apppriority, a);
    case DoClose(h) => CloseKeeps(v, ds, h, a);
    case DoStartCamera(h) => StartCameraKeeps(v, ds, h, a);
    case DoStopCamera(h) => StopCameraKeeps(v, ds, h, a);
    case DoStartPreview(h, window) => StartPreviewKeeps(v, ds, h, window, a);
    case DoStopPreview(h) => StopCameraKeeps(v, ds, h, a);
    case DoStartCapture(h, f, continuous) => StartCaptureKeeps(v, ds, h, f, continuous, a);
    case DoStopCapture(h, request) => StopCaptureKeeps(v, ds, h, request, a);
    case DoSetFormat(h, f) => SettingsKeep(v, ds, h, f, a);
    case DoSetProperty(h) => SettingsKeep(v, ds, h, v.format, a);
  }

  // ---- runs ----

  /** A call, the device status map it found, and the answers it got. */
  datatype Event = Event(op: Op, devices: DeviceMap, answers: Answers)

  function Run(v: Vdm, events: seq<Event>): Vdm {
    if events == [] then v
    else
      var e := events[|events| - 1];
      Step(Run(v, events[..|events| - 1]), e.devices, e.op, e.answers).vdm
  }

  /** From a new manager, through any calls with any handles, any HAL failures and any changes of the
      device map: the streaming list is duplicate-free and names exactly the handles in state STREAMING
      or PREVIEW, the HAL's clients are among them, at most one handle is primary, and a non-empty
      capture list means a capture in progress. */
  lemma {:induction false} RunIsConsistent(events: seq<Event>)
    ensures Consistent(Run(INITIAL, events))
  {
    if events != [] {
      RunIsConsistent(events[..|events| - 1]);
      var e := events[|events| - 1];
      StepKeeps(Run(INITIAL, events[..|events| - 1]), e.devices, e.op, e.answers);
    }
  }

  // ---- runs without HAL failures ----

  predicate HalWillingly(a: Answers) {
    && a.startPreview == OK && a.stopPreview == OK && a.addClient == OK && a.removeClient == OK
  }

  /** HAL and manager agree: the clients are the streaming handles, and the HAL previews for them. */
  ghost predicate InStep(v: Vdm) {
    && (forall c :: c in v.hal.clients <==> c in v.streaming)
    && (v.hal.preview <==> v.streaming != [])
  }

  lemma StopCameraInStep(v: Vdm, ds: DeviceMap, h: int, a: Answers)
    requires Consistent(v) && InStep(v) && HalWillingly(a)
    ensures InStep(StopCamera(v, ds, h, a).vdm)
  {
    if h in v.streaming {
      EraseFirstOf(v.streaming, h);
      EraseFirstShrinks(v.streaming, h);
    }
  }

  lemma StartCameraInStep(v: Vdm, ds: DeviceMap, h: int, a: Answers)
    requires Consistent(v) && InStep(v) && HalWillingly(a)
    ensures InStep(StartCamera(v, ds, h, a).vdm)
  {
  }

  lemma SameBooksInStep(v: Vdm, u: Vdm)
    requires InStep(v)
    requires u.streaming == v.streaming && u.hal.clients == v.hal.clients && u.hal.preview == v.hal.preview
    ensures InStep(u)
  {
  }

  lemma StartPreviewInStep(v: Vdm, ds: DeviceMap, h: int, window: string, a: Answers)
    requires Consistent(v) && InStep(v) && HalWillingly(a)
    ensures InStep(StartPreview(v, ds, h, window, a).vdm)
  {
    var o := StartCamera(v, ds, h, a);
    StartCameraKeeps(v, ds, h, a);
    StartCameraInStep(v, ds, h, a);
    if window != "" && o.code == OK && !a.displayStart {
      StopCameraInStep(o.vdm, o.devices, h, a);
    }
  }

  lemma OpenDeviceInStep(v: Vdm, ds: DeviceMap, devid: int, a: Answers)
    requires InStep(v)
    ensures InStep(OpenDevice(v, ds, devid, a).vdm)
  {
  }

  lemma OpenInStep(v: Vdm, ds: DeviceMap, devid: int, apppriority: string, a: Answers)
    requires InStep(v)
    ensures InStep(Open(v, ds, devid, apppriority, a).vdm)
  {
    hide OpenDevice, FirstFree, HasPrimary;
    var o := OpenDevice(v, ds, devid, a);
    OpenDeviceInStep(v, ds, devid, a);
    SameBooksInStep(o.vdm, InsertPriority(o.vdm, o.handle, EffectivePriority(v, apppriority)));
    SameBooksInStep(v, NewHandle(v, devid, a.draws).1);
  }

  lemma CloseInStep(v: Vdm, ds: DeviceMap, h: int, a: Answers)
    requires InStep(v)
    ensures InStep(Close(v, ds, h, a).vdm)
  {
  }

  lemma StartCaptureInStep(v: Vdm, ds: DeviceMap, h: int, f: Format, continuous: bool, a: Answers)
    requires InStep(v)
    ensures InStep(StartCapture(v, ds, h, f, continuous, a).vdm)
  {
    hide Noted, InStep, HasPrimary, PriorityOf, SameShape;
    SameBooksInStep(v, StartCapture(v, ds, h, f, continuous, a).vdm);
  }

  lemma StopCaptureInStep(v: Vdm, ds: DeviceMap, h: int, request: bool, a: Answers)
    requires InStep(v)
    ensures InStep(StopCapture(v, ds, h, request, a).vdm)
  {
  }

  lemma SettingsInStep(v: Vdm, ds: DeviceMap, h: int, f: Format, a: Answers)
    requires InStep(v)
    ensures InStep(SetFormat(v, ds, h, f, a).vdm)
    ensures InStep(SetProperty(v, ds, h, a).vdm)
  {
  }

  lemma StepInStep(v: Vdm, ds: DeviceMap, op: Op, a: Answers)
    requires Consistent(v) && InStep(v) && HalWillingly(a)
    ensures InStep(Step(v, ds, op, a).vdm)
  {
    match op
    case DoOpen(devid, apppriority) => OpenInStep(v, ds, devid, apppriority, a);
    case DoClose(h) => CloseInStep(v, ds, h, a);
    case DoStartCamera(h) => StartCameraInStep(v, ds, h, a);
    case DoStopCamera(h) => StopCameraInStep(v, ds, h, a);
    case DoStartPreview(h, window) => StartPreviewInStep(v, ds, h, window, a);
    case DoStopPreview(h) => StopCameraInStep(v, ds, h, a);
    case DoStartCapture(h, f, continuous) => StartCaptureInStep(v, ds, h, f, continuous, a);
    case DoStopCapture(h, request) => StopCaptureInStep(v, ds, h, request, a);
    case DoSetFormat(h, f) => SettingsInStep(v, ds, h, f, a);
    case DoSetProperty(h) => SettingsInStep(v, ds, h, v.format, a);
  }

  /** While the HAL's preview and client calls succeed, and only those need to, its clients are exactly
      the streaming handles and it previews exactly while there are any. */
  lemma {:induction false} RunIsInStep(events: seq<Event>)
    requires forall i :: 0 <= i < |events| ==> HalWillingly(events[i].answers)
    ensures InStep(Run(INITIAL, events))
  {
    if events != [] {
      RunIsInStep(events[..|events| - 1]);
      RunIsConsistent(events[..|events| - 1]);
      var e := events[|events| - 1];
      StepInStep(Run(INITIAL, events[..|events| - 1]), e.devices, e.op, e.answers);
    }
  }

  // ---- the primary's privileges ----

  /** The handle a call is made with. */
  function Caller(op: Op): Option<int> {
    match op
    case DoOpen(_, _) => None
    case DoClose(h) => Some(h)
    case DoStartCamera(h) => Some(h)
    case DoStopCamera(h) => Some(h)
    case DoStartPreview(h, _) => Some(h)
    case DoStopPreview(h) => Some(h)
    case DoStartCapture(h, _, _) => Some(h)
    case DoStopCapture(h, _) => Some(h)
    case DoSetFormat(h, _) => Some(h)
    case DoSetProperty(h) => Some(h)
  }

  /** A call any handle may have made to a HAL whose saved format is `f`. */
  predicate Unprivileged(c: HalCall, f: Format) {
    && !c.HalSetFormat? && !c.HalSetProperty?
    && (c.HalStartCapture? ==> SameShape(c.format, f))
  }

  /** From `v` to `u` the saved format stayed and only unprivileged calls reached the HAL. */
  ghost predicate Quiet(v: Vdm, u: Vdm) {
    && u.format == v.format
    && v.hal.calls <= u.hal.calls
    && forall i :: |v.hal.calls| <= i < |u.hal.calls| ==> Unprivileged(u.hal.calls[i], v.format)
  }

  lemma AskQuietly(v: Vdm, u: Vdm, c: HalCall, answer: Code)
    requires Quiet(v, u) && Unprivileged(c, v.format)
    ensures Quiet(v, Ask(u, c, answer))
  {
  }

  lemma QuietThrough(v: Vdm, u: Vdm, w: Vdm)
    requires Quiet(v, u) && w.format == u.format && w.hal.calls == u.hal.calls
    ensures Quiet(v, w)
  {
  }

  lemma OpenIsQuiet(v: Vdm, ds: DeviceMap, devid: int, apppriority: string, a: Answers)
    ensures Quiet(v, Open(v, ds, devid, apppriority, a).vdm)
  {
    var v0 := Ask(v, CreateHal, a.createHal);
    AskQuietly(v, v, CreateHal, a.createHal);
    AskQuietly(v, v0, HalOpen, a.open);
    var u := Open(v, ds, devid, apppriority, a).vdm;
    if u.hal.calls == v.hal.calls {
      QuietThrough(v, v, u);
    } else if a.createHal != OK {
      QuietThrough(v, v0, u);
    } else {
      QuietThrough(v, Ask(v0, HalOpen, a.open), u);
    }
  }

  lemma CloseIsQuiet(v: Vdm, ds: DeviceMap, h: int, a: Answers)
    ensures Quiet(v, Close(v, ds, h, a).vdm)
  {
    var v0 := Ask(v, HalClose(h, v.streaming, v.priority.Keys), a.close);
    AskQuietly(v, v, HalClose(h, v.streaming, v.priority.Keys), a.close);
    AskQuietly(v, v0, DestroyHal, a.destroyHal);
  }

  lemma StartCameraIsQuiet(w: Vdm, v: Vdm, ds: DeviceMap, h: int, a: Answers)
    requires Quiet(w, v)
    ensures Quiet(w, StartCamera(v, ds, h, a).vdm)
  {
    var v1 := if v.streaming == [] then Ask(v, HalStartPreview, a.startPreview) else v;
    AskQuietly(w, v, HalStartPreview, a.startPreview);
    AskQuietly(w, v1, AddClient(h), a.addClient);
  }

  lemma StopCameraIsQuiet(w: Vdm, v: Vdm, ds: DeviceMap, h: int, a: Answers)
    requires Quiet(w, v)
    ensures Quiet(w, StopCamera(v, ds, h, a).vdm)
  {
    AskQuietly(w, v, RemoveClient(h), a.removeClient);
    AskQuietly(w, Ask(v, RemoveClient(h), a.removeClient), HalStopPreview, a.stopPreview);
  }

  lemma StartPreviewIsQuiet(v: Vdm, ds: DeviceMap, h: int, window: string, a: Answers)
    ensures Quiet(v, StartPreview(v, ds, h, window, a).vdm)
  {
    var o := StartCamera(v, ds, h, a);
    StartCameraIsQuiet(v, v, ds, h, a);
    StopCameraIsQuiet(v, o.vdm, o.devices, h, a);
  }

  lemma CaptureIsQuiet(v: Vdm, ds: DeviceMap, h: int, f: Format, flag: bool, a: Answers)
    requires HasPrimary(v) && PriorityOf(v, h) != PRIMARY
    ensures Quiet(v, StartCapture(v, ds, h, f, flag, a).vdm)
    ensures Quiet(v, StopCapture(v, ds, h, flag, a).vdm)
  {
    var (v1, f1) := UpdateFormat(v, f, h);
    AskQuietly(v, v1, HalStartCapture(h, f1, flag), a.startCapture);
    AskQuietly(v, v, HalStopCapture(h), a.stopCapture);
  }

  /** While `q` is primary, a call made with any other handle leaves the saved format alone, reaches
      neither setFormat nor setDeviceProperty of the HAL, and captures only in the saved width, height
      and pixel format. */
  lemma PrimaryOwnsSettings(v: Vdm, ds: DeviceMap, op: Op, a: Answers, q: int)
    requires OnePrimary(v) && q in v.priority && v.priority[q] == PRIMARY
    requires Caller(op) != Some(q)
    ensures Quiet(v, Step(v, ds, op, a).vdm)
  {
    assert HasPrimary(v);
    match op
    case DoOpen(devid, apppriority) => OpenIsQuiet(v, ds, devid, apppriority, a);
    case DoClose(h) => CloseIsQuiet(v, ds, h, a);
    case DoStartCamera(h) => StartCameraIsQuiet(v, v, ds, h, a);
    case DoStopCamera(h) => StopCameraIsQuiet(v, v, ds, h, a);
    case DoStartPreview(h, window) => StartPreviewIsQuiet(v, ds, h, window, a);
    case DoStopPreview(h) => StopCameraIsQuiet(v, v, ds, h, a);
    case DoStartCapture(h, f, continuous) => CaptureIsQuiet(v, ds, h, f, continuous, a);
    case DoStopCapture(h, request) => CaptureIsQuiet(v, ds, h, v.format, request, a);
    case DoSetFormat(h, f) =>
    case DoSetProperty(h) =>
  }

  predicate IsPrimary(v: Vdm, q: int) {
    q in v.priority && v.priority[q] == PRIMARY
  }

  lemma OpenKeepsPrimary(v: Vdm, ds: DeviceMap, devid: int, apppriority: string, a: Answers, q: int)
    requires IsPrimary(v, q)
    ensures IsPrimary(Open(v, ds, devid, apppriority, a).vdm, q)
  {
    hide FirstFree, HasPrimary, EffectivePriority;
  }

  lemma CloseKeepsPrimary(v: Vdm, ds: DeviceMap, h: int, a: Answers, q: int)
    requires IsPrimary(v, q) && h != q
    ensures IsPrimary(Close(v, ds, h, a).vdm, q)
  {
  }

  lemma CameraKeepsPriority(v: Vdm, ds: DeviceMap, h: int, a: Answers)
    ensures StartCamera(v, ds, h, a).vdm.priority == v.priority
    ensures StopCamera(v, ds, h, a).vdm.priority == v.priority
  {
  }

  lemma StartCaptureKeepsPriority(v: Vdm, ds: DeviceMap, h: int, f: Format, continuous: bool, a: Answers)
    ensures StartCapture(v, ds, h, f, continuous, a).vdm.priority == v.priority
  {
  }

  lemma SettingsKeepPriority(v: Vdm, ds: DeviceMap, h: int, f: Format, request: bool, a: Answers)
    ensures StopCapture(v, ds, h, request, a).vdm.priority == v.priority
    ensures SetFormat(v, ds, h, f, a).vdm.priority == v.priority
    ensures SetProperty(v, ds, h, a).vdm.priority == v.priority
  {
  }

  lemma CallKeepsPriority(v: Vdm, ds: DeviceMap, op: Op, a: Answers)
    requires !op.DoOpen? && !op.DoClose?
    ensures Step(v, ds, op, a).vdm.priority == v.priority
  {
    hide StartCamera, StopCamera, StartCapture, StopCapture, SetFormat, SetProperty;
    var h := op.h;
    CameraKeepsPriority(v, ds, h, a);
    var o := StartCamera(v, ds, h, a);
    CameraKeepsPriority(o.vdm, o.devices, h, a);
    match op
    case DoStartCapture(_, f, continuous) => StartCaptureKeepsPriority(v, ds, h, f, continuous, a);
    case DoStopCapture(_, request) => SettingsKeepPriority(v, ds, h, v.format, request, a);
    case DoSetFormat(_, f) => SettingsKeepPriority(v, ds, h, f, true, a);
    case DoSetProperty(_) => SettingsKeepPriority(v, ds, h, v.format, true, a);
    case _ =>
  }

  /** Nobody but the primary itself ends its privilege. */
  lemma PrimaryStays(v: Vdm, ds: DeviceMap, op: Op, a: Answers, q: int)
    requires IsPrimary(v, q) && Caller(op) != Some(q)
    ensures IsPrimary(Step(v, ds, op, a).vdm, q)
  {
    hide Open, Close;
    if op.DoOpen? {
      OpenKeepsPrimary(v, ds, op.devid, op.apppriority, a, q);
    } else if op.DoClose? {
      CloseKeepsPrimary(v, ds, op.h, a, q);
    } else {
      hide Step;
      CallKeepsPriority(v, ds, op, a);
    }
  }

  lemma QuietTwice(u: Vdm, v: Vdm, w: Vdm)
    requires Quiet(u, v) && Quiet(v, w)
    ensures Quiet(u, w)
  {
    forall i | |u.hal.calls| <= i < |w.hal.calls| ensures Unprivileged(w.hal.calls[i], u.format) {
      if i < |v.hal.calls| { assert w.hal.calls[i] == v.hal.calls[i]; }
    }
  }

  /** Over any run in which the primary itself makes no call it stays primary, the saved format stays,
      and neither setFormat nor setDeviceProperty nor a capture in another format reaches the HAL. */
  lemma {:induction false} PrimaryRules(v: Vdm, events: seq<Event>, q: int)
    requires Consistent(v) && IsPrimary(v, q)
    requires forall i :: 0 <= i < |events| ==> Caller(events[i].op) != Some(q)
    ensures var u := Run(v, events); Consistent(u) && IsPrimary(u, q) && Quiet(v, u)
  {
    if events != [] {
      var n := |events| - 1;
      var e, before := events[n], Run(v, events[..n]);
      PrimaryRules(v, events[..n], q);
      StepKeeps(before, e.devices, e.op, e.answers);
      PrimaryStays(before, e.devices, e.op, e.answers, q);
      PrimaryOwnsSettings(before, e.devices, e.op, e.answers, q);
      QuietTwice(v, before, Step(before, e.devices, e.op, e.answers).vdm);
    }
  }

  /** A successful open without a wish leaves the manager with a primary, which is the new handle exactly
      if there was none; a wish is granted. */
  lemma OpenElects(v: Vdm, ds: DeviceMap, devid: int, apppriority: string, a: Answers)
    requires Consistent(v) && Open(v, ds, devid, apppriority, a).code == OK
    ensures var o := Open(v, ds, devid, apppriority, a);
            && o.handle in o.vdm.priority && o.handle !in v.priority
            && (apppriority != "" ==> o.vdm.priority[o.handle] == apppriority)
            && (apppriority == "" ==> HasPrimary(o.vdm) && (IsPrimary(o.vdm, o.handle) <==> !HasPrimary(v)))
  {
    var o := Open(v, ds, devid, apppriority, a);
    hide OpenDevice, FirstFree;
    OpenRegisters(v, ds, devid, apppriority, a);
    if HasPrimary(v) {
      var q :| q in v.priority && v.priority[q] == PRIMARY;
      assert IsPrimary(o.vdm, q);
    } else if apppriority == "" {
      assert IsPrimary(o.vdm, o.handle);
    }
  }

  lemma OpenRegisters(v: Vdm, ds: DeviceMap, devid: int, apppriority: string, a: Answers)
    requires Consistent(v) && Open(v, ds, devid, apppriority, a).code == OK
    ensures var o := Open(v, ds, devid, apppriority, a);
            o.handle !in v.priority && o.vdm.priority == v.priority[o.handle := EffectivePriority(v, apppriority)]
  {
    hide HasPrimary, EffectivePriority;
  }

  /** What the primary asks for is saved, and reaches the HAL unchanged: a format always, a capture exactly if
      it is not a continuous one that finds a capture in progress. */
  lemma PrimaryIsObeyed(v: Vdm, ds: DeviceMap, q: int, f: Format, continuous: bool, a: Answers)
    requires IsPrimary(v, q) && q in v.handles && IsOpen(ds, v.handles[q].deviceId)
    ensures var u := StartCapture(v, ds, q, f, continuous, a).vdm;
            && SameShape(u.format, f)
            && u.hal.calls ==
               v.hal.calls + (if continuous && v.capturing then [] else [HalStartCapture(q, f, continuous)])
    ensures var u := SetFormat(v, ds, q, f, a).vdm;
            && u.hal.calls == v.hal.calls + [HalSetFormat(q, f)]
            && (if a.setFormat == OK then SameShape(u.format, f) else u.format == v.format)
  {
  }
}
