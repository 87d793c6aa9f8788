/** What a granted call leaves behind, and what undoes it. */
module CallLaws {
  import opened DeviceManager
  import opened VirtualDevice
  import opened VirtualDeviceRuns
  import opened BackedHandles
  import opened CaptureRuns

  // ---- streaming ----

  /** The same handles in the same states, the same streams, and a HAL that serves the same clients. */
  predicate SameStreams(v: Vdm, u: Vdm) {
    && u.handles == v.handles && u.priority == v.priority && u.streaming == v.streaming
    && u.hal.clients == v.hal.clients && u.hal.preview == v.hal.preview
  }

  /** Handle `h` streams in `u`, in state `state` and as a client of a HAL that previews; all others are as in `v`. */
  predicate Joins(v: Vdm, u: Vdm, h: int, state: CamState) {
    && h in v.handles && u.handles == v.handles[h := v.handles[h].(state := state)] && u.priority == v.priority
    && u.streaming == v.streaming + [h]
    && u.hal.clients == v.hal.clients + {h} && u.hal.preview
  }

  /** May the handle begin to stream? */
  predicate MayStream(v: Vdm, ds: DeviceMap, h: int) {
    h in v.handles && IsOpen(ds, v.handles[h].deviceId) && v.handles[h].state == Opened
  }

  /** A start that is allowed and not refused makes the handle stream; any other leaves everything but the log
      and the HAL's preview. */
  lemma StartStreams(v: Vdm, ds: DeviceMap, h: int, a: Answers)
    requires InStep(v)
    ensures var o := StartCamera(v, ds, h, a);
            && (o.code == OK <==>
                  MayStream(v, ds, h) && (v.streaming == [] ==> a.startPreview == OK) && a.addClient == OK)
            && (MayStream(v, ds, h) ==>
                  o.code == if v.streaming == [] && a.startPreview != OK then a.startPreview else a.addClient)
            && (if o.code == OK then Joins(v, o.vdm, h, Streaming) else o.vdm.(hal := v.hal) == v)
            && o.devices == ds
  {
  }

  /** What a start asks of the HAL: a preview for the first stream, then, unless that is refused, the client. */
  lemma StartAsks(v: Vdm, ds: DeviceMap, h: int, a: Answers)
    ensures StartCamera(v, ds, h, a).vdm.hal.calls == v.hal.calls +
            if !MayStream(v, ds, h) then []
            else if v.streaming != [] then [AddClient(h)]
            else if a.startPreview != OK then [HalStartPreview]
            else [HalStartPreview, AddClient(h)]
  {
    assert v.hal.calls + [HalStartPreview] + [AddClient(h)] == v.hal.calls + [HalStartPreview, AddClient(h)];
  }

  /** What a stop asks of the HAL: the client to go, then, unless that is refused, an end of the preview behind the
      last stream. */
  lemma StopAsks(v: Vdm, ds: DeviceMap, h: int, a: Answers)
    requires Consistent(v) && Active(v, h) && IsOpen(ds, v.handles[h].deviceId)
    ensures var o := StopCamera(v, ds, h, a);
            && o.vdm.hal.calls == v.hal.calls +
               (if a.removeClient == OK && v.streaming == [h] then [RemoveClient(h), HalStopPreview]
                else [RemoveClient(h)])
            && o.code == (if a.removeClient == OK && v.streaming == [h] then a.stopPreview else a.removeClient)
            && (o.code != OK ==> o.vdm.(hal := v.hal) == v)
  {
    assert |v.streaming| == 1 <==> v.streaming == [h];
    assert v.hal.calls + [RemoveClient(h)] + [HalStopPreview] == v.hal.calls + [RemoveClient(h), HalStopPreview];
    hide EraseFirst;
  }

  // ---- refusals ----

  predicate Usable(v: Vdm, ds: DeviceMap, h: int) {
    h in v.handles && IsOpen(ds, v.handles[h].deviceId)
  }

  /** A handle that is unknown, or whose device is closed, is told so by every call that needs it, and nothing
      changes, except that a capture may already have saved the primary's format. */
  lemma UnusableIsRefused(v: Vdm, ds: DeviceMap, h: int, f: Format, flag: bool, window: string, a: Answers)
    requires !Usable(v, ds, h)
    ensures StartCamera(v, ds, h, a) == StopCamera(v, ds, h, a) == Out(NotOpened, v, ds)
    ensures StopCapture(v, ds, h, flag, a) == Out(NotOpened, v, ds)
    ensures StartPreview(v, ds, h, window, a) == Out(if window == "" then InvalidWindowId else NotOpened, v, ds)
    ensures var o := StartCapture(v, ds, h, f, flag, a);
            o.code == NotOpened && o.devices == ds && o.vdm.(format := v.format) == v
    ensures SetFormat(v, ds, h, f, a).vdm == SetProperty(v, ds, h, a).vdm == v
    ensures !HasPrimary(v) ==> SetFormat(v, ds, h, f, a).code == SetProperty(v, ds, h, a).code == NotOpened
  {
    hide HasPrimary, SameShape;
  }

  /** A call that does not suit the state of the handle is told so, and nothing changes. */
  lemma WrongStateIsRefused(v: Vdm, ds: DeviceMap, h: int, flag: bool, a: Answers)
    requires Consistent(v) && Usable(v, ds, h)
    ensures StartCamera(v, ds, h, a) == Out(InvalidState, v, ds) <==> Active(v, h)
    ensures StopCamera(v, ds, h, a) == Out(InvalidState, v, ds) <==> !Active(v, h)
    ensures Active(v, h) && h in v.priority ==> Close(v, ds, h, a) == Out(InvalidState, v, ds)
    ensures h !in v.priority ==> Close(v, ds, h, a) == Out(AlreadyClosed, v, ds)
    ensures h !in v.captures ==> StopCapture(v, ds, h, flag, a) == Out(AlreadyStopped, v, ds)
  {
    hide EraseFirst;
    if Active(v, h) {
      StopAsks(v, ds, h, a);
      assert |StopCamera(v, ds, h, a).vdm.hal.calls| > |v.hal.calls|;
    }
  }

  /** A handle whose device was closed or unplugged is forgotten by its close, without the HAL. */
  lemma CloseOfGoneDevice(v: Vdm, ds: DeviceMap, h: int, a: Answers)
    requires h in v.priority && h in v.handles && v.handles[h].state == Opened && !IsOpen(ds, v.handles[h].deviceId)
    ensures var o := Close(v, ds, h, a);
            && o.code == AlreadyClosed && o.devices == ds && o.vdm.hal == v.hal
            && o.vdm.handles == v.handles - {h} && o.vdm.priority == v.priority - {h}
  {
  }

  predicate WishTooLate(v: Vdm, apppriority: string) {
    apppriority == PRIMARY && HasPrimary(v)
  }

  /** An open that cannot be granted is found out before the HAL is asked: the wish for the privilege comes too
      late, or there is no such device. */
  lemma OpenRefused(v: Vdm, ds: DeviceMap, devid: int, apppriority: string, a: Answers)
    requires WishTooLate(v, apppriority) || devid !in ds
    ensures Open(v, ds, devid, apppriority, a) ==
            OpenOut(if WishTooLate(v, apppriority) then AlreadyOpenedPrimary else NoDevice, INVALID_ID, v, ds)
  {
    hide HasPrimary;
  }

  /** Otherwise a device that is open already needs nothing but a free draw. One that is not is created and opened in
      the HAL, and marked as the HAL answers, whether or not a handle is found for it. */
  lemma OpenOutcome(v: Vdm, ds: DeviceMap, devid: int, apppriority: string, a: Answers)
    requires !WishTooLate(v, apppriority) && devid in ds
    ensures var o := Open(v, ds, devid, apppriority, a);
            var created := IsOpen(ds, devid) || a.createHal == OK;
            && o.code == (if created && Drawn(v, a).Some? then (if IsOpen(ds, devid) then OK else a.open)
                          else CanNotOpen)
            && o.devices == (if created && (IsOpen(ds, devid) || a.open == OK) then SetStatus(ds, devid, true) else ds)
            && o.vdm.hal.calls == v.hal.calls +
               (if IsOpen(ds, devid) then [] else if created then [CreateHal, HalOpen] else [CreateHal])
            && (o.code != OK ==> o.vdm.priority == v.priority)
  {
    hide FirstFree, HasPrimary, EffectivePriority;
    assert v.hal.calls + [CreateHal] + [HalOpen] == v.hal.calls + [CreateHal, HalOpen];
  }

  // ---- drawing a handle ----

  predicate FreeDraw(d: int, taken: set<int>) {
    d != 0 && d != INVALID_ID && d !in taken
  }

  /** The first draw that is free is taken, none exactly if none is free. */
  lemma {:induction false} FirstFreeIsFirst(draws: seq<int>, taken: set<int>)
    ensures FirstFree(draws, taken).None? <==> forall k :: 0 <= k < |draws| ==> !FreeDraw(draws[k], taken)
    ensures FirstFree(draws, taken).Some? ==>
              exists k :: 0 <= k < |draws| && FirstFree(draws, taken).value == draws[k] && FreeDraw(draws[k], taken)
                          && forall j :: 0 <= j < k ==> !FreeDraw(draws[j], taken)
  {
    if draws != [] && !FreeDraw(draws[0], taken) {
      FirstFreeIsFirst(draws[1..], taken);
      assert forall k :: 1 <= k < |draws| ==> draws[k] == draws[1..][k - 1];
      if FirstFree(draws, taken).Some? {
        var k :| 0 <= k < |draws[1..]| && FirstFree(draws, taken).value == draws[1..][k]
                 && FreeDraw(draws[1..][k], taken)
                 && forall j :: 0 <= j < k ==> !FreeDraw(draws[1..][j], taken);
        assert draws[k + 1] == draws[1..][k];
        assert forall j :: 0 <= j < k + 1 ==> !FreeDraw(draws[j], taken);
      }
    }
  }

  // ---- undoing a start ----

  lemma {:induction false} AppendedIsErased(s: seq<int>, h: int)
    requires h !in s
    ensures EraseFirst(s + [h], h) == s
  {
    if s == [] {
      assert s + [h] == [h];
    } else {
      AppendedIsErased(s[1..], h);
      assert (s + [h])[1..] == s[1..] + [h];
    }
  }

  lemma NoneIn(s: set<int>)
    requires forall x :: x !in s
    ensures s == {}
  {
    if s != {} {
      var x := SomeIn(s);
      assert false;
    }
  }

  /** A stop undoes a start. */
  lemma StopUndoesStart(v: Vdm, ds: DeviceMap, u: Vdm, h: int, state: CamState, a: Answers)
    requires Consistent(v) && InStep(v) && MayStream(v, ds, h) && HalWillingly(a)
    requires Joins(v, u, h, state) && (state.Streaming? || state.Preview?)
    ensures var o := StopCamera(u, ds, h, a); o.code == OK && SameStreams(v, o.vdm) && o.devices == ds
  {
    assert h !in v.streaming && h !in v.hal.clients;
    AppendedIsErased(v.streaming, h);
    assert v.handles[h := v.handles[h].(state := state)][h := v.handles[h]] == v.handles;
    assert v.handles[h].(state := state).(state := Opened) == v.handles[h];
    assert v.hal.clients + {h} - {h} == v.hal.clients;
    if v.streaming == [] {
      NoneIn(v.hal.clients);
    }
  }

  /** A preview that is granted leaves the handle previewing; it is granted exactly if there is a window, the
      handle may stream, and neither HAL nor display refuses. A refusing display is as if nothing had happened. */
  lemma PreviewGranted(v: Vdm, ds: DeviceMap, h: int, window: string, a: Answers)
    requires Consistent(v) && InStep(v) && HalWillingly(a)
    ensures var o := StartPreview(v, ds, h, window, a);
            && (o.code == OK <==>
                  window != "" && a.displayStart && StartCamera(v, ds, h, a).code == OK)
            && (if o.code == OK then Joins(v, o.vdm, h, Preview)
                else if StartCamera(v, ds, h, a).code == OK then SameStreams(v, o.vdm)
                else o.vdm.(hal := v.hal) == v)
            && (window == "" ==> o.vdm == v && o.code == InvalidWindowId)
            && (window != "" && StartCamera(v, ds, h, a).code == OK && !a.displayStart ==> o.code == InvalidWindowId)
  {
    hide StartCamera, StopCamera, Consistent, InStep, HalWillingly, MayStream;
    var o := StartCamera(v, ds, h, a);
    StartStreams(v, ds, h, a);
    if window != "" && o.code == OK {
      assert MayStream(v, ds, h);
      StopUndoesStart(v, ds, o.vdm, h, Streaming, a);
      assert SetState(o.vdm, h, Preview).handles == v.handles[h := v.handles[h].(state := Preview)];
    }
  }

  /** And stopping it undoes it, once the display has stopped. */
  lemma PreviewUndone(v: Vdm, ds: DeviceMap, h: int, window: string, a: Answers)
    requires Consistent(v) && InStep(v) && HalWillingly(a) && StartPreview(v, ds, h, window, a).code == OK
    ensures var u := StartPreview(v, ds, h, window, a).vdm;
            var o := StopPreview(u, ds, h, a);
            if a.displayStop then o.code == OK && SameStreams(v, o.vdm) else o.code == InvalidState && o.vdm == u
  {
    PreviewGranted(v, ds, h, window, a);
    StartStreams(v, ds, h, a);
    StopUndoesStart(v, ds, StartPreview(v, ds, h, window, a).vdm, h, Preview, a);
    hide StartPreview, StopCamera, StartCamera;
  }

  // ---- captures ----

  /** Stopping a continuous capture undoes its start, for the list, the service and the HAL. */
  lemma CaptureUndone(v: Vdm, ds: DeviceMap, h: int, f: Format, a: Answers)
    requires CaptureInStep(v) && h !in v.captures && a.stopCapture == OK
    requires StartCapture(v, ds, h, f, true, a).code == OK
    ensures var u := StartCapture(v, ds, h, f, true, a).vdm;
            var o := StopCapture(u, ds, h, true, a);
            && u.captures == v.captures + [h] && u.hal.capturing
            && o.code == OK && o.vdm.captures == v.captures
            && o.vdm.capturing == v.capturing && o.vdm.hal.capturing == v.hal.capturing
  {
    AppendedIsErased(v.captures, h);
    hide HasPrimary, PriorityOf, SameShape;
  }

  // ---- opening and closing ----

  /** The first open asks the HAL to be created and opened, and marks the device; closing that handle again takes
      all of it back. A later open asks nothing of the HAL. */
  lemma CloseUndoesOpen(v: Vdm, ds: DeviceMap, devid: int, apppriority: string, a: Answers)
    requires Consistent(v) && Open(v, ds, devid, apppriority, a).code == OK
    requires a.close == OK && a.destroyHal == OK && (IsOpen(ds, devid) <==> v.priority != map[])
    ensures var o := Open(v, ds, devid, apppriority, a);
            var c := Close(o.vdm, o.devices, o.handle, a);
            var physical := v.priority == map[];
            && IsOpen(o.devices, devid)
            && o.vdm.hal.calls == v.hal.calls + (if physical then [CreateHal, HalOpen] else [])
            && c.code == OK && c.vdm.handles == v.handles && c.vdm.priority == v.priority && c.devices == ds
            && c.vdm.hal.calls ==
               o.vdm.hal.calls + (if physical then [HalClose(o.handle, v.streaming, {o.handle}), DestroyHal] else [])
  {
    OpenEffect(v, ds, devid, apppriority, a);
    OpenRegisters(v, ds, devid, apppriority, a);
    OpenAsks(v, ds, devid, apppriority, a);
    var o := Open(v, ds, devid, apppriority, a);
    assert o.handle !in v.priority && o.handle !in v.handles && IsOpen(o.devices, devid);
    hide Open, Consistent, EffectivePriority;
    CloseAfterOpen(v, ds, o.vdm, o.handle, devid, EffectivePriority(v, apppriority), a);
  }

  /** Closing handle `h`, which `u` has beyond `v`. */
  lemma CloseAfterOpen(v: Vdm, ds: DeviceMap, u: Vdm, h: int, devid: int, p: string, a: Answers)
    requires h !in v.priority && h !in v.handles && devid in ds && a.close == OK && a.destroyHal == OK
    requires u.handles == v.handles[h := DevState(devid, Opened)] && u.priority == v.priority[h := p]
    requires u.streaming == v.streaming
    requires IsOpen(ds, devid) <==> v.priority != map[]
    ensures var c := Close(u, SetStatus(ds, devid, true), h, a);
            var physical := v.priority == map[];
            && c.code == OK && c.vdm.handles == v.handles && c.vdm.priority == v.priority && c.devices == ds
            && c.vdm.hal.calls ==
               u.hal.calls + (if physical then [HalClose(h, v.streaming, {h}), DestroyHal] else [])
  {
    assert u.handles - {h} == v.handles && u.priority - {h} == v.priority;
    var es := SetStatus(ds, devid, true);
    if v.priority == map[] {
      assert u.priority.Keys == {h} && |u.priority| == 1;
      assert SetStatus(es, devid, false) == ds;
      assert u.hal.calls + [HalClose(h, v.streaming, {h})] + [DestroyHal] ==
             u.hal.calls + [HalClose(h, v.streaming, {h}), DestroyHal];
    } else {
      assert |u.priority| == |v.priority| + 1;
      assert es == ds;
    }
  }

  lemma OpenAsks(v: Vdm, ds: DeviceMap, devid: int, apppriority: string, a: Answers)
    requires Open(v, ds, devid, apppriority, a).code == OK
    ensures var o := Open(v, ds, devid, apppriority, a);
            && o.vdm.hal.calls == v.hal.calls + (if IsOpen(ds, devid) then [] else [CreateHal, HalOpen])
            && o.devices == SetStatus(ds, devid, true) && devid in ds
  {
    hide FirstFree, HasPrimary, EffectivePriority;
    assert v.hal.calls + [CreateHal] + [HalOpen] == v.hal.calls + [CreateHal, HalOpen];
  }

  // ---- settings ----

  /** A capture asks for what its caller wishes if the caller is primary or nobody is; otherwise for the saved width,
      height and pixel format at the caller's frame rate. Only a primary's wish is saved, but for its frame rate. The
      HAL is asked unless a continuous capture joins one in progress, and then decides. */
  lemma CaptureAsks(v: Vdm, ds: DeviceMap, h: int, f: Format, continuous: bool, a: Answers)
    requires Usable(v, ds, h)
    ensures var o := StartCapture(v, ds, h, f, continuous, a);
            var asked := if IsPrimary(v, h) || !HasPrimary(v) then f else v.format.(fps := f.fps);
            var joins := continuous && v.capturing;
            && o.vdm.hal.calls == v.hal.calls + (if joins then [] else [HalStartCapture(h, asked, continuous)])
            && o.vdm.format == (if IsPrimary(v, h) then f.(fps := v.format.fps) else v.format)
            && o.code == (if joins then OK else a.startCapture)
            && o.vdm.captures == v.captures + (if continuous && o.code == OK then [h] else [])
            && o.vdm.capturing == (v.capturing || (continuous && o.code == OK))
            && o.vdm.handles == v.handles && o.vdm.priority == v.priority && o.devices == ds
  {
    assert SameShape(f, v.format) ==> f == v.format.(fps := f.fps) && f.(fps := v.format.fps) == v.format;
    hide HasPrimary;
  }

  /** A format reaches the HAL unchanged if the caller is primary or nobody is, and is saved, but for its frame rate,
      exactly if the HAL accepts it; otherwise nothing happens. */
  lemma FormatAsks(v: Vdm, ds: DeviceMap, h: int, f: Format, a: Answers)
    requires Usable(v, ds, h)
    ensures var o := SetFormat(v, ds, h, f, a);
            if IsPrimary(v, h) || !HasPrimary(v) then
              && o.code == a.setFormat && o.vdm.hal.calls == v.hal.calls + [HalSetFormat(h, f)]
              && o.vdm.format == (if a.setFormat == OK then f.(fps := v.format.fps) else v.format)
            else
              o == Out(CanNotSet, v, ds)
  {
    hide HasPrimary;
  }

  /** A property reaches the HAL exactly if the handle is open and no other handle is primary. */
  lemma PropertyReaches(v: Vdm, ds: DeviceMap, h: int, a: Answers)
    requires Consistent(v)
    ensures var o := SetProperty(v, ds, h, a);
            var allowed := h in v.handles && IsOpen(ds, v.handles[h].deviceId)
                           && forall q :: q in v.priority && v.priority[q] == PRIMARY ==> q == h;
            && o.vdm.hal.calls == v.hal.calls + (if allowed then [HalSetProperty(h)] else [])
            && o.code == (if allowed then a.setProperty
                          else if h in v.handles && HasPrimary(v) && !IsPrimary(v, h) then CanNotSet else NotOpened)
  {
    if HasPrimary(v) {
      var q :| q in v.priority && v.priority[q] == PRIMARY;
      assert PriorityOf(v, h) == PRIMARY <==> q == h;
    }
  }
}
