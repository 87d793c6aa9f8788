/** The manager object itself: its fields are updated in place, and every call is proved to do what
    module VirtualDevice says of the old state. */
module VirtualDeviceManager {
  import opened Wrappers
  import opened DeviceManager
  import opened VirtualDevice

  /** How often a new handle is drawn. */
  const MAX_DRAWS: nat := 100

  /** std::find */
  method FindFirst(s: seq<int>, x: int) returns (i: nat)
    ensures i <= |s|
    ensures i == |s| <==> x !in s
    ensures i < |s| ==> EraseFirst(s, x) == s[..i] + s[i + 1..]
  {
    i := 0;
    while i < |s| && s[i] != x
      invariant i <= |s| && x !in s[..i]
    {
      i := i + 1;
    }
    assert s == s[..i] + s[i..];
    if i < |s| {
      EraseFirstAt(s, x, i);
    }
  }

  lemma {:induction false} EraseFirstAt(s: seq<int>, x: int, i: nat)
    requires i < |s| && s[i] == x && x !in s[..i]
    ensures EraseFirst(s, x) == s[..i] + s[i + 1..]
  {
    if i == 0 {
    } else {
      assert s[0] == s[..i][0];
      assert s[1..][..i - 1] == s[..i][1..];
      EraseFirstAt(s[1..], x, i - 1);
    }
  }

  class VirtualDeviceManager {
    const devices: DeviceManager
    var handles: map<int, DevState>
    var priority: map<int, string>
    var capturing: bool
    var streaming: seq<int>
    var captures: seq<int>
    var format: Format
    var hal: Hal

    function View(): Vdm
      reads this
    {
      Vdm(handles, priority, capturing, streaming, captures, format, hal)
    }

    constructor (dm: DeviceManager)
      ensures View() == INITIAL && devices == dm
    {
      devices := dm;
      handles, priority, capturing := map[], map[], false;
      streaming, captures, format, hal := [], [], INITIAL.format, INITIAL.hal;
    }

    /** A call on the HAL proxy. */
    method Ask(c: HalCall, answer: Code) returns (code: Code)
      modifies this`hal
      ensures code == answer && hal == Asked(old(hal), c, answer)
    {
      hal := Asked(hal, c, answer);
      return answer;
    }

    method CheckAppPriorityMap() returns (found: bool)
      ensures found <==> HasPrimary(View())
    {
      var todo := priority.Keys;
      while todo != {}
        invariant todo <= priority.Keys
        invariant forall h :: h in priority && priority[h] == PRIMARY ==> h in todo
        decreases todo
      {
        var h := Take(todo);
        if priority[h] == PRIMARY {
          return true;
        }
        todo := todo - {h};
      }
      return false;
    }

    /** Draw handles until one is usable and unused here, at most a hundred times. */
    method GetVirtualDeviceHandle(devid: int, draws: seq<int>) returns (handle: int)
      requires |draws| == MAX_DRAWS
      modifies this`handles
      ensures var (h, v) := NewHandle(old(View()), devid, draws);
              View() == v && handle == if h.Some? then h.value else INVALID_ID
    {
      handle := INVALID_ID;
      var tries := 0;
      while tries < MAX_DRAWS && handle == INVALID_ID
        invariant tries <= MAX_DRAWS
        invariant FirstFree(draws, handles.Keys) ==
                  if handle == INVALID_ID then FirstFree(draws[tries..], handles.Keys) else Some(handle)
        decreases MAX_DRAWS - tries
      {
        var candidate := draws[tries];
        if candidate != 0 && candidate != INVALID_ID && candidate !in handles {
          handle := candidate;
        }
        tries := tries + 1;
      }
      if handle == INVALID_ID {
        return;
      }
      handles := handles[handle := DevState(devid, Opened)];
    }

    method OpenDevice(devid: int, a: Answers) returns (code: Code, handle: int)
      requires |a.draws| == MAX_DRAWS
      modifies this, devices
      ensures OpenOut(code, handle, View(), devices.deviceMap) ==
              VirtualDevice.OpenDevice(old(View()), old(devices.deviceMap), devid, a)
    {
      var ret := Ask(CreateHal, a.createHal);
      if ret != OK {
        return CanNotOpen, INVALID_ID;
      }
      ret := Ask(HalOpen, a.open);
      if ret == OK {
        var _ := devices.SetDeviceStatus(devid, true);
      }
      handle := GetVirtualDeviceHandle(devid, a.draws);
      if handle == INVALID_ID {
        return CanNotOpen, INVALID_ID;
      }
      return ret, handle;
    }

    method Open(devid: int, apppriority: string, a: Answers) returns (code: Code, handle: int)
      requires |a.draws| == MAX_DRAWS
      modifies this, devices
      ensures OpenOut(code, handle, View(), devices.deviceMap) ==
              VirtualDevice.Open(old(View()), old(devices.deviceMap), devid, apppriority, a)
    {
      var hasPrimary := CheckAppPriorityMap();
      var effective := apppriority;
      if apppriority == "" {
        effective := if hasPrimary then SECONDARY else PRIMARY;
      } else if apppriority == PRIMARY && hasPrimary {
        return AlreadyOpenedPrimary, INVALID_ID;
      }
      if devid !in devices.deviceMap {
        return NoDevice, INVALID_ID;
      }
      if IsOpen(devices.deviceMap, devid) {
        handle := GetVirtualDeviceHandle(devid, a.draws);
        if handle == INVALID_ID {
          return CanNotOpen, INVALID_ID;
        }
        AddPriority(handle, effective);
        return OK, handle;
      }
      code, handle := OpenDevice(devid, a);
      if code == OK {
        AddPriority(handle, effective);
      }
    }

    /** std::map::insert */
    method AddPriority(handle: int, p: string)
      modifies this`priority
      ensures View() == InsertPriority(old(View()), handle, p)
    {
      if handle !in priority {
        priority := priority[handle := p];
      }
    }

    method Close(h: int, a: Answers) returns (code: Code)
      modifies this, devices
      ensures Out(code, View(), devices.deviceMap) == VirtualDevice.Close(old(View()), old(devices.deviceMap), h, a)
    {
      if h !in priority {
        return AlreadyClosed;
      }
      if h !in handles {
        return AlreadyClosed;
      }
      if handles[h].state != Opened {
        return InvalidState;
      }
      code := OK;
      if IsOpen(devices.deviceMap, handles[h].deviceId) {
        if |priority| == 1 {
          code := Ask(HalClose(h, streaming, priority.Keys), a.close);
          if code != OK {
            return;
          }
          var _ := devices.SetDeviceStatus(handles[h].deviceId, false);
          code := Ask(DestroyHal, a.destroyHal);
        }
      } else {
        code := AlreadyClosed;
      }
      handles := handles - {h};
      priority := priority - {h};
    }

    method StartCamera(h: int, a: Answers) returns (code: Code)
      modifies this
      ensures Out(code, View(), devices.deviceMap) ==
              VirtualDevice.StartCamera(old(View()), old(devices.deviceMap), h, a)
    {
      if h !in handles {
        return NotOpened;
      }
      if !IsOpen(devices.deviceMap, handles[h].deviceId) {
        return NotOpened;
      }
      if handles[h].state != Opened {
        return InvalidState;
      }
      if |streaming| == 0 {
        code := Ask(HalStartPreview, a.startPreview);
        if code != OK {
          return;
        }
      }
      code := Ask(AddClient(h), a.addClient);
      if code != OK {
        return;
      }
      streaming := streaming + [h];
      handles := handles[h := handles[h].(state := Streaming)];
    }

    method StopCamera(h: int, a: Answers) returns (code: Code)
      modifies this
      ensures Out(code, View(), devices.deviceMap) ==
              VirtualDevice.StopCamera(old(View()), old(devices.deviceMap), h, a)
    {
      if h !in handles {
        return NotOpened;
      }
      if !IsOpen(devices.deviceMap, handles[h].deviceId) {
        return NotOpened;
      }
      if handles[h].state.Closed? || handles[h].state.Opened? {
        return InvalidState;
      }
      var position := FindFirst(streaming, h);
      if position == |streaming| {
        return NoDevice;
      }
      code := Ask(RemoveClient(h), a.removeClient);
      if code != OK {
        return;
      }
      if |streaming| == 1 {
        code := Ask(HalStopPreview, a.stopPreview);
        if code != OK {
          return;
        }
      }
      streaming := streaming[..position] + streaming[position + 1..];
      handles := handles[h := handles[h].(state := Opened)];
    }

    method StartPreview(h: int, window: string, a: Answers) returns (code: Code)
      modifies this
      ensures Out(code, View(), devices.deviceMap) ==
              VirtualDevice.StartPreview(old(View()), old(devices.deviceMap), h, window, a)
    {
      if window == "" {
        return InvalidWindowId;
      }
      code := StartCamera(h, a);
      if code != OK {
        return;
      }
      if !a.displayStart {
        var _ := StopCamera(h, a);
        return InvalidWindowId;
      }
      if h !in handles {
        return NotOpened;
      }
      handles := handles[h := handles[h].(state := Preview)];
    }

    method StopPreview(h: int, a: Answers) returns (code: Code)
      modifies this
      ensures Out(code, View(), devices.deviceMap) ==
              VirtualDevice.StopPreview(old(View()), old(devices.deviceMap), h, a)
    {
      if !a.displayStop {
        return InvalidState;
      }
      code := StopCamera(h, a);
    }

    method UpdateFormat(f: Format, h: int) returns (g: Format)
      modifies this`format
      ensures (View(), g) == VirtualDevice.UpdateFormat(old(View()), f, h)
    {
      g := f;
      if !SameShape(f, format) {
        var hasPrimary := CheckAppPriorityMap();
        if !(h in priority && priority[h] == PRIMARY) {
          if hasPrimary {
            g := Format(format.code, format.width, format.height, f.fps);
          }
        } else {
          format := Format(f.code, f.width, f.height, format.fps);
        }
      }
    }

    method StartCapture(h: int, f: Format, continuous: bool, a: Answers) returns (code: Code)
      modifies this
      ensures Out(code, View(), devices.deviceMap) ==
              VirtualDevice.StartCapture(old(View()), old(devices.deviceMap), h, f, continuous, a)
    {
      if h !in handles {
        return NotOpened;
      }
      var g := UpdateFormat(f, h);
      if !IsOpen(devices.deviceMap, handles[h].deviceId) {
        return NotOpened;
      }
      if !continuous {
        code := Ask(HalStartCapture(h, g, false), a.startCapture);
        return;
      }
      if capturing {
        captures := captures + [h];
        return OK;
      }
      code := Ask(HalStartCapture(h, g, true), a.startCapture);
      if code == OK {
        capturing := true;
        captures := captures + [h];
      }
    }

    method StopCapture(h: int, request: bool, a: Answers) returns (code: Code)
      modifies this
      ensures Out(code, View(), devices.deviceMap) ==
              VirtualDevice.StopCapture(old(View()), old(devices.deviceMap), h, request, a)
    {
      if h !in handles {
        return NotOpened;
      }
      if !IsOpen(devices.deviceMap, handles[h].deviceId) {
        return NotOpened;
      }
      if |captures| == 0 {
        return AlreadyStopped;
      }
      var position := FindFirst(captures, h);
      if position == |captures| {
        return AlreadyStopped;
      }
      code := OK;
      if |captures| == 1 {
        if request {
          code := Ask(HalStopCapture(h), a.stopCapture);
        }
        if code == OK {
          capturing := false;
        }
      }
      captures := captures[..position] + captures[position + 1..];
    }

    /** The proxy's callback for a capture fault: the HAL has stopped, and the noted handles are stopped without
        asking it. */
    method CaptureFault(a: Answers)
      modifies this
      ensures View() == VirtualDevice.CaptureFault(old(View()), old(devices.deviceMap), a)
    {
      ghost var was, ds := View(), devices.deviceMap;
      hal := hal.(capturing := false);
      var devHandles := hal.noted;
      hide VirtualDevice.StopCapture;
      for k := 0 to |devHandles|
        invariant View() == StopEach(was.(hal := was.hal.(capturing := false)), ds, devHandles[..k], a)
      {
        assert devHandles[..k + 1][..k] == devHandles[..k];
        var _ := StopCapture(devHandles[k], false, a);
      }
      assert devHandles[..|devHandles|] == devHandles;
      hal := hal.(noted := []);
    }

    method SetFormat(h: int, f: Format, a: Answers) returns (code: Code)
      modifies this
      ensures Out(code, View(), devices.deviceMap) ==
              VirtualDevice.SetFormat(old(View()), old(devices.deviceMap), h, f, a)
    {
      if h !in handles {
        return NotOpened;
      }
      var hasPrimary := CheckAppPriorityMap();
      if !(h in priority && priority[h] == PRIMARY) && hasPrimary {
        return CanNotSet;
      }
      if !IsOpen(devices.deviceMap, handles[h].deviceId) {
        return NotOpened;
      }
      code := Ask(HalSetFormat(h, f), a.setFormat);
      if code == OK {
        format := Format(f.code, f.width, f.height, format.fps);
      }
    }

    method SetProperty(h: int, a: Answers) returns (code: Code)
      modifies this
      ensures Out(code, View(), devices.deviceMap) ==
              VirtualDevice.SetProperty(old(View()), old(devices.deviceMap), h, a)
    {
      if h !in handles {
        return NotOpened;
      }
      var hasPrimary := CheckAppPriorityMap();
      if !(h in priority && priority[h] == PRIMARY) && hasPrimary {
        return CanNotSet;
      }
      if !IsOpen(devices.deviceMap, handles[h].deviceId) {
        return NotOpened;
      }
      code := Ask(HalSetProperty(h), a.setProperty);
    }

    /** The registry's way in: any call but an open. */
    method Call(op: Op, a: Answers) returns (code: Code)
      requires !op.DoOpen?
      modifies this, devices
      ensures Out(code, View(), devices.deviceMap) == Step(old(View()), old(devices.deviceMap), op, a)
    {
      match op
      case DoClose(h) => code := Close(h, a);
      case DoStartCamera(h) => code := StartCamera(h, a);
      case DoStopCamera(h) => code := StopCamera(h, a);
      case DoStartPreview(h, window) => code := StartPreview(h, window, a);
      case DoStopPreview(h) => code := StopPreview(h, a);
      case DoStartCapture(h, f, continuous) => code := StartCapture(h, f, continuous, a);
      case DoStopCapture(h, request) => code := StopCapture(h, request, a);
      case DoSetFormat(h, f) => code := SetFormat(h, f, a);
      case DoSetProperty(h) => code := SetProperty(h, a);
    }
  }
}
