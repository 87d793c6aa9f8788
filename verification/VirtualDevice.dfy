/** One camera shared by many handles: what each call on it does to its books, to the device status map
    and to the HAL process. The HAL is an adversary: every call to it may be answered with an error, and
    then had no effect. */
module VirtualDevice {
  import opened Wrappers
  import opened DeviceManager

  datatype CamState = Closed | Opened | Streaming | Preview

  datatype DevState = DevState(deviceId: int, state: CamState)

  datatype Format = Format(code: int, width: int, height: int, fps: int)

  /** DEVICE_RETURN_CODE_T: the codes these calls return themselves, and any other a HAL answers. */
  datatype Code = OK | CanNotOpen | AlreadyOpenedPrimary | NoDevice | AlreadyClosed | InvalidState
                | NotOpened | InvalidWindowId | CanNotSet | AlreadyStopped | WrongParam | Unknown | Other(n: int)

  /** What is asked of the HAL process. A close also notes the handles that were streaming and those
      that were registered when it was asked. */
  datatype HalCall =
    | CreateHal | HalOpen | DestroyHal
    | HalClose(who: int, active: seq<int>, registered: set<int>)
    | HalStartPreview | HalStopPreview
    | AddClient(id: int) | RemoveClient(id: int)
    | HalStartCapture(who: int, format: Format, continuous: bool) | HalStopCapture(who: int)
    | HalSetFormat(who: int, format: Format) | HalSetProperty(who: int)

  /** The HAL process, and what its proxy notes: `capturing` is a continuous capture under way, `noted` the
      handles such a capture was last asked for and not yet asked to stop. */
  datatype Hal = Hal(preview: bool, clients: set<int>, capturing: bool, noted: seq<int>, calls: seq<HalCall>)

  /** Answers of the HAL, the display and the random source to one call on the manager. */
  datatype Answers = Answers(createHal: Code, open: Code, close: Code, destroyHal: Code,
                             startPreview: Code, stopPreview: Code, addClient: Code, removeClient: Code,
                             startCapture: Code, stopCapture: Code, setFormat: Code, setProperty: Code,
                             displayStart: bool, displayStop: bool, draws: seq<int>)

  const PRIMARY := "primary"
  const SECONDARY := "secondary"
  const INVALID_ID: int := -1

  /** A manager: its handles, the priority of the registered ones, the streaming and capturing lists, the
      saved format, and its HAL. */
  datatype Vdm = Vdm(handles: map<int, DevState>, priority: map<int, string>, capturing: bool,
                     streaming: seq<int>, captures: seq<int>, format: Format, hal: Hal)

  const INITIAL: Vdm := Vdm(map[], map[], false, [], [], Format(0, 0, 0, 0), Hal(false, {}, false, [], []))

  datatype Out = Out(code: Code, vdm: Vdm, devices: DeviceMap)

  /** The proxy's list, before the call is sent. */
  function Noted(noted: seq<int>, c: HalCall): seq<int> {
    match c
    case HalStartCapture(who, _, continuous) => if continuous && who !in noted then noted + [who] else noted
    case HalStopCapture(who) => EraseFirst(noted, who)
    case _ => noted
  }

  /** An answered call to the HAL. */
  function Asked(hal: Hal, c: HalCall, answer: Code): Hal {
    var h := hal.(calls := hal.calls + [c], noted := Noted(hal.noted, c));
    if answer != OK then h
    else
      match c
      case HalStartPreview => h.(preview := true)
      case HalStopPreview => h.(preview := false, clients := {})
      case AddClient(id) => h.(clients := h.clients + {id})
      case RemoveClient(id) => h.(clients := h.clients - {id})
      case HalStartCapture(_, _, continuous) => if continuous then h.(capturing := true) else h
      case HalStopCapture(_) => h.(capturing := false)
      case DestroyHal => h.(capturing := false)
      case _ => h
  }

  function Ask(v: Vdm, c: HalCall, answer: Code): Vdm {
    v.(hal := Asked(v.hal, c, answer))
  }

  predicate HasPrimary(v: Vdm) {
    exists h | h in v.priority :: v.priority[h] == PRIMARY
  }

  function PriorityOf(v: Vdm, h: int): string {
    if h in v.priority then v.priority[h] else ""
  }

  // ---- open ----

  /** The first draw that is a usable handle nobody here has. */
  function FirstFree(draws: seq<int>, taken: set<int>): (r: Option<int>)
    ensures r.Some? ==> r.value in draws && r.value != 0 && r.value != INVALID_ID && r.value !in taken
  {
    if draws == [] then None
    else if draws[0] != 0 && draws[0] != INVALID_ID && draws[0] !in taken then Some(draws[0])
    else FirstFree(draws[1..], taken)
  }

  function NewHandle(v: Vdm, devid: int, draws: seq<int>): (Option<int>, Vdm) {
    var r := FirstFree(draws, v.handles.Keys);
    if r.None? then (None, v) else (r, v.(handles := v.handles[r.value := DevState(devid, Opened)]))
  }

  /** std::map::insert: an existing key keeps its value. */
  function InsertPriority(v: Vdm, h: int, p: string): Vdm {
    if h in v.priority then v else v.(priority := v.priority[h := p])
  }

  datatype OpenOut = OpenOut(code: Code, handle: int, vdm: Vdm, devices: DeviceMap)

  function OpenDevice(v: Vdm, ds: DeviceMap, devid: int, a: Answers): OpenOut {
    var v0 := Ask(v, CreateHal, a.createHal);
    if a.createHal != OK then OpenOut(CanNotOpen, INVALID_ID, v0, ds)
    else
      var v1 := Ask(v0, HalOpen, a.open);
      var ds1 := if a.open == OK then SetStatus(ds, devid, true) else ds;
      var (h, v2) := NewHandle(v1, devid, a.draws);
      if h.None? then OpenOut(CanNotOpen, INVALID_ID, v2, ds1) else OpenOut(a.open, h.value, v2, ds1)
  }

  function EffectivePriority(v: Vdm, apppriority: string): string {
    if apppriority == "" then (if HasPrimary(v) then SECONDARY else PRIMARY) else apppriority
  }

  function Open(v: Vdm, ds: DeviceMap, devid: int, apppriority: string, a: Answers): OpenOut {
    if apppriority == PRIMARY && HasPrimary(v) then OpenOut(AlreadyOpenedPrimary, INVALID_ID, v, ds)
    else if devid !in ds then OpenOut(NoDevice, INVALID_ID, v, ds)
    else if IsOpen(ds, devid) then
      var (h, v1) := NewHandle(v, devid, a.draws);
      if h.None? then OpenOut(CanNotOpen, INVALID_ID, v1, ds)
      else OpenOut(OK, h.value, InsertPriority(v1, h.value, EffectivePriority(v, apppriority)), ds)
    else
      var o := OpenDevice(v, ds, devid, a);
      if o.code == OK then o.(vdm := InsertPriority(o.vdm, o.handle, EffectivePriority(v, apppriority))) else o
  }

  // ---- close ----

  function Forget(v: Vdm, h: int): Vdm {
    v.(handles := v.handles - {h}, priority := v.priority - {h})
  }

  function Close(v: Vdm, ds: DeviceMap, h: int, a: Answers): Out {
    if h !in v.priority then Out(AlreadyClosed, v, ds)
    else if h !in v.handles then Out(AlreadyClosed, v, ds)
    else if v.handles[h].state != Opened then Out(InvalidState, v, ds)
    else if IsOpen(ds, v.handles[h].deviceId) then
      if |v.priority| == 1 then
        var v1 := Ask(v, HalClose(h, v.streaming, v.priority.Keys), a.close);
        if a.close != OK then Out(a.close, v1, ds)
        else
          Out(a.destroyHal, Forget(Ask(v1, DestroyHal, a.destroyHal), h),
              SetStatus(ds, v.handles[h].deviceId, false))
      else Out(OK, Forget(v, h), ds)
    else Out(AlreadyClosed, Forget(v, h), ds)
  }

  // ---- streaming ----

  function SetState(v: Vdm, h: int, s: CamState): Vdm
    requires h in v.handles
  {
    v.(handles := v.handles[h := v.handles[h].(state := s)])
  }

  function StartCamera(v: Vdm, ds: DeviceMap, h: int, a: Answers): Out {
    if h !in v.handles then Out(NotOpened, v, ds)
    else if !IsOpen(ds, v.handles[h].deviceId) then Out(NotOpened, v, ds)
    else if v.handles[h].state != Opened then Out(InvalidState, v, ds)
    else
      var v1 := if v.streaming == [] then Ask(v, HalStartPreview, a.startPreview) else v;
      if v.streaming == [] && a.startPreview != OK then Out(a.startPreview, v1, ds)
      else
        var v2 := Ask(v1, AddClient(h), a.addClient);
        if a.addClient != OK then Out(a.addClient, v2, ds)
        else Out(OK, SetState(v2.(streaming := v2.streaming + [h]), h, Streaming), ds)
  }

  /** std::find and erase: the first occurrence goes. */
  function EraseFirst(s: seq<int>, x: int): (r: seq<int>) {
    if s == [] then [] else if s[0] == x then s[1..] else [s[0]] + EraseFirst(s[1..], x)
  }

  function StopCamera(v: Vdm, ds: DeviceMap, h: int, a: Answers): Out {
    if h !in v.handles then Out(NotOpened, v, ds)
    else if !IsOpen(ds, v.handles[h].deviceId) then Out(NotOpened, v, ds)
    else if !(v.handles[h].state.Streaming? || v.handles[h].state.Preview?) then Out(InvalidState, v, ds)
    else if h !in v.streaming then Out(NoDevice, v, ds)
    else
      var v1 := Ask(v, RemoveClient(h), a.removeClient);
      if a.removeClient != OK then Out(a.removeClient, v1, ds)
      else
        var v2 := if |v.streaming| == 1 then Ask(v1, HalStopPreview, a.stopPreview) else v1;
        if |v.streaming| == 1 && a.stopPreview != OK then Out(a.stopPreview, v2, ds)
        else Out(OK, SetState(v2.(streaming := EraseFirst(v2.streaming, h)), h, Opened), ds)
  }

  function StartPreview(v: Vdm, ds: DeviceMap, h: int, window: string, a: Answers): Out {
    if window == "" then Out(InvalidWindowId, v, ds)
    else
      var o := StartCamera(v, ds, h, a);
      if o.code != OK then o
      else if !a.displayStart then StopCamera(o.vdm, o.devices, h, a).(code := InvalidWindowId)
      else if h !in o.vdm.handles then o.(code := NotOpened)
      else o.(vdm := SetState(o.vdm, h, Preview))
  }

  function StopPreview(v: Vdm, ds: DeviceMap, h: int, a: Answers): Out {
    if !a.displayStop then Out(InvalidState, v, ds) else StopCamera(v, ds, h, a)
  }

  // ---- capture and settings ----

  predicate SameShape(f: Format, g: Format) {
    f.code == g.code && f.width == g.width && f.height == g.height
  }

  /** updateFormat: the primary's wish is saved; anyone else's gives way to the saved one while a primary
      exists. The frame rate is left as asked. */
  function UpdateFormat(v: Vdm, f: Format, h: int): (Vdm, Format) {
    if SameShape(f, v.format) then (v, f)
    else if PriorityOf(v, h) != PRIMARY then
      (v, if HasPrimary(v) then v.format.(fps := f.fps) else f)
    else (v.(format := f.(fps := v.format.fps)), f)
  }

  function StartCapture(v: Vdm, ds: DeviceMap, h: int, f: Format, continuous: bool, a: Answers): Out {
    if h !in v.handles then Out(NotOpened, v, ds)
    else
      var (v1, f1) := UpdateFormat(v, f, h);
      if !IsOpen(ds, v.handles[h].deviceId) then Out(NotOpened, v1, ds)
      else if !continuous then Out(a.startCapture, Ask(v1, HalStartCapture(h, f1, false), a.startCapture), ds)
      else if v1.capturing then Out(OK, v1.(captures := v1.captures + [h]), ds)
      else
        var v2 := Ask(v1, HalStartCapture(h, f1, true), a.startCapture);
        if a.startCapture != OK then Out(a.startCapture, v2, ds)
        else Out(OK, v2.(capturing := true, captures := v2.captures + [h]), ds)
  }

  function StopCapture(v: Vdm, ds: DeviceMap, h: int, request: bool, a: Answers): Out {
    if h !in v.handles then Out(NotOpened, v, ds)
    else if !IsOpen(ds, v.handles[h].deviceId) then Out(NotOpened, v, ds)
    else if v.captures == [] || h !in v.captures then Out(AlreadyStopped, v, ds)
    else
      var asks := |v.captures| == 1 && request;
      var ret := if asks then a.stopCapture else OK;
      var v1 := if asks then Ask(v, HalStopCapture(h), a.stopCapture) else v;
      var v2 := if |v.captures| == 1 && ret == OK then v1.(capturing := false) else v1;
      Out(ret, v2.(captures := EraseFirst(v2.captures, h)), ds)
  }

  /** The handles one after the other, without asking the HAL. */
  function StopEach(v: Vdm, ds: DeviceMap, hs: seq<int>, a: Answers): Vdm {
    if hs == [] then v else StopCapture(StopEach(v, ds, hs[..|hs| - 1], a), ds, hs[|hs| - 1], false, a).vdm
  }

  /** The HAL gave up a continuous capture: its proxy stops it for the handles it noted. */
  function CaptureFault(v: Vdm, ds: DeviceMap, a: Answers): Vdm {
    var u := StopEach(v.(hal := v.hal.(capturing := false)), ds, v.hal.noted, a);
    u.(hal := u.hal.(noted := []))
  }

  function SetFormat(v: Vdm, ds: DeviceMap, h: int, f: Format, a: Answers): Out {
    if h !in v.handles then Out(NotOpened, v, ds)
    else if PriorityOf(v, h) != PRIMARY && HasPrimary(v) then Out(CanNotSet, v, ds)
    else if !IsOpen(ds, v.handles[h].deviceId) then Out(NotOpened, v, ds)
    else
      var v1 := Ask(v, HalSetFormat(h, f), a.setFormat);
      Out(a.setFormat, if a.setFormat == OK then v1.(format := f.(fps := v1.format.fps)) else v1, ds)
  }

  function SetProperty(v: Vdm, ds: DeviceMap, h: int, a: Answers): Out {
    if h !in v.handles then Out(NotOpened, v, ds)
    else if PriorityOf(v, h) != PRIMARY && HasPrimary(v) then Out(CanNotSet, v, ds)
    else if !IsOpen(ds, v.handles[h].deviceId) then Out(NotOpened, v, ds)
    else Out(a.setProperty, Ask(v, HalSetProperty(h), a.setProperty), ds)
  }

  // ---- one step of a manager ----

  datatype Op =
    | DoOpen(devid: int, apppriority: string)
    | DoClose(h: int)
    | DoStartCamera(h: int) | DoStopCamera(h: int)
    | DoStartPreview(h: int, window: string) | DoStopPreview(h: int)
    | DoStartCapture(h: int, f: Format, continuous: bool) | DoStopCapture(h: int, request: bool)
    | DoSetFormat(h: int, f: Format) | DoSetProperty(h: int)

  function Step(v: Vdm, ds: DeviceMap, op: Op, a: Answers): Out {
    match op
    case DoOpen(devid, apppriority) =>
      var o := Open(v, ds, devid, apppriority, a);
      Out(o.code, o.vdm, o.devices)
    case DoClose(h) => Close(v, ds, h, a)
    case DoStartCamera(h) => StartCamera(v, ds, h, a)
    case DoStopCamera(h) => StopCamera(v, ds, h, a)
    case DoStartPreview(h, window) => StartPreview(v, ds, h, window, a)
    case DoStopPreview(h) => StopPreview(v, ds, h, a)
    case DoStartCapture(h, f, continuous) => StartCapture(v, ds, h, f, continuous, a)
    case DoStopCapture(h, request) => StopCapture(v, ds, h, request, a)
    case DoSetFormat(h, f) => SetFormat(v, ds, h, f, a)
    case DoSetProperty(h) => SetProperty(v, ds, h, a)
  }
}
