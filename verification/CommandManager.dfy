/** The registry object: one entry per handle, shared managers, and the loops that tear entries down. */
module CommandManager {
  import opened DeviceManager
  import opened VirtualDevice
  import opened VirtualDeviceManager
  import opened Sessions
  import opened SessionHealth
  import opened Unplugging

  lemma {:induction false} InsertAt<K>(r: seq<Entry<K>>, e: Entry<K>, p: nat)
    requires p <= |r| && (p < |r| ==> Before(e.node, r[p].node))
    requires forall j :: 0 <= j < p ==> !Before(e.node, r[j].node)
    ensures Insert(r, e) == r[..p] + [e] + r[p..]
  {
    if p == 0 {
      assert r[..0] + [e] + r[0..] == [e] + r;
    } else {
      InsertAt(r[1..], e, p - 1);
      assert r[..p] == [r[0]] + r[1..][..p - 1] && r[p..] == r[1..][p - 1..];
    }
  }

  lemma ErasedAreUnplugged(m: DeviceMap, t: string, list: seq<DeviceInfo>, ids: seq<int>)
    requires forall id :: id in ids <==> Unplugged(m, t, list, id)
    ensures m - Unplugging.IdsOf(ids) == WithoutUnplugged(m, t, list)
    ensures forall id :: Released(m, ids, id) <==> Unplugged(m, t, list, id) && IsOpen(m, id)
  {
  }

  /** A close that finds the handle is a call on the entry's manager. */
  lemma CloseFound<K>(s: System<K>, h: int, a: Answers)
    requires h != INVALID_ID && Find(s.registry, h) < |s.registry|
    ensures var i := Find(s.registry, h);
            var k := s.registry[i].manager;
            var o := Step(ManagerOf(s, k), s.devices, DoClose(h), a);
            CloseSession(s, h, a) ==
              Sessions.Result(o.code, if o.code == OK || o.code == AlreadyClosed
                                      then Returned(s, k, o).(registry := RemoveAt(s.registry, i))
                                      else Returned(s, k, o))
  {
    hide Find, VirtualDevice.Close;
  }

  lemma ReturnedKeepsRegistry<K>(s: System<K>, k: K, o: Out)
    ensures Returned(s, k, o).registry == s.registry
  {
  }


  class CommandManager {
    const devices: DeviceManager
    var registry: seq<Entry<VirtualDeviceManager>>

    /** Every manager that ever had an entry. */
    ghost var all: set<VirtualDeviceManager>

    ghost predicate Valid()
      reads this
    {
      && (forall m :: m in all ==> m.devices == devices)
      && (forall e :: e in registry ==> e.manager in all)
    }

    ghost function View(): System<VirtualDeviceManager>
      reads this, all, devices
    {
      System(registry, map m | m in all :: m.View(), devices.deviceMap)
    }

    constructor (dm: DeviceManager)
      ensures Valid() && devices == dm && fresh(all)
      ensures View() == System([], map[], dm.deviceMap)
    {
      devices := dm;
      registry, all := [], {};
    }

    /** The loop of getVirtualDeviceMgrObj and its likes. */
    method FindEntry(h: int) returns (i: nat)
      ensures i == Find(registry, h)
    {
      i := 0;
      while i < |registry|
        invariant i <= |registry|
        invariant forall j :: 0 <= j < i ==> registry[j].handle != h
      {
        if registry[i].handle == h {
          return;
        }
        i := i + 1;
      }
    }

    /** multimap::find */
    method FindAtNode(node: string) returns (i: nat)
      ensures i == FindNode(registry, node)
    {
      i := 0;
      while i < |registry| && registry[i].node != node
        invariant i <= |registry|
        invariant forall j :: 0 <= j < i ==> registry[j].node != node
      {
        i := i + 1;
      }
    }

    /** multimap::insert */
    method InsertEntry(e: Entry<VirtualDeviceManager>)
      modifies this`registry
      ensures registry == Insert(old(registry), e)
    {
      var p := 0;
      while p < |registry| && !Before(e.node, registry[p].node)
        invariant p <= |registry|
        invariant forall j :: 0 <= j < p ==> !Before(e.node, registry[j].node)
      {
        p := p + 1;
      }
      InsertAt(registry, e, p);
      registry := registry[..p] + [e] + registry[p..];
    }

    method RemoveEntry(h: int)
      modifies this`registry
      ensures registry == if Find(old(registry), h) < |old(registry)|
                          then RemoveAt(old(registry), Find(old(registry), h))
                          else old(registry)
      ensures View() == old(View()).(registry := registry)
      ensures old(Valid()) ==> Valid()
    {
      var i := FindEntry(h);
      if i < |registry| {
        registry := registry[..i] + registry[i + 1..];
      }
    }

    /** A call on a manager of this registry. */
    method CallOn(m: VirtualDeviceManager, op: Op, a: Answers) returns (code: Code)
      requires Valid() && m in all && !op.DoOpen?
      modifies m, devices
      ensures Valid()
      ensures var o := Step(ManagerOf(old(View()), m), old(devices.deviceMap), op, a);
              code == o.code && View() == Returned(old(View()), m, o)
    {
      code := m.Call(op, a);
      assert View().managers == old(View()).managers[m := m.View()];
    }

    /** Open on a manager that has an entry, or is new. */
    method OpenOn(m: VirtualDeviceManager, deviceId: int, apppriority: string, a: Answers)
      returns (code: Code, handle: int)
      requires Valid() && m.devices == devices && |a.draws| == MAX_DRAWS
      modifies m, devices
      ensures var o := VirtualDevice.Open(old(m.View()), old(devices.deviceMap), deviceId, apppriority, a);
              && code == o.code && handle == o.handle && m.View() == o.vdm
              && View() == old(View()).(managers := if m in all then old(View()).managers[m := o.vdm]
                                                    else old(View()).managers,
                                        devices := o.devices)
    {
      hide VirtualDevice.Open;
      code, handle := m.Open(deviceId, apppriority, a);
      assert View().managers == if m in all then old(View()).managers[m := m.View()] else old(View()).managers;
    }

    /** The manager joins the registry with its new handle. */
    method Join(m: VirtualDeviceManager, e: Entry<VirtualDeviceManager>)
      requires Valid() && m.devices == devices && e.manager == m
      modifies this
      ensures Valid()
      ensures View() == System(Insert(old(registry), e), old(View()).managers[m := m.View()], devices.deviceMap)
    {
      all := all + {m};
      InsertEntry(e);
      InsertedAreKnown(old(registry), e);
      assert View().managers == old(View()).managers[m := m.View()];
    }

    method Open(deviceId: int, apppriority: string, a: Answers)
      returns (code: Code, handle: int, ghost spare: VirtualDeviceManager)
      requires Valid() && |a.draws| == MAX_DRAWS
      modifies this, all, devices
      ensures Valid()
      ensures FindNode(old(registry), NodeOf(old(devices.deviceMap), deviceId)) == |old(registry)| ==> fresh(spare)
      ensures Sessions.Result(code, View()) == OpenSession(old(View()), deviceId, apppriority, spare, a)
    {
      hide VirtualDevice.Open, Insert, FindNode, NodeOf;
      var node := NodeOf(devices.deviceMap, deviceId);
      var m := ManagerFor(node);
      spare := m;
      code, handle := OpenOn(m, deviceId, apppriority, a);
      if code == OK {
        Join(m, Entry(node, m, handle, deviceId, ""));
      }
    }

    /** The manager at the node, or a new one. */
    method ManagerFor(node: string) returns (m: VirtualDeviceManager)
      requires Valid()
      ensures m.devices == devices && View() == old(View())
      ensures var i := FindNode(registry, node);
              if i < |registry| then m == registry[i].manager else fresh(m) && m.View() == INITIAL
    {
      var i := FindAtNode(node);
      if i < |registry| {
        m := registry[i].manager;
      } else {
        m := new VirtualDeviceManager(devices);
      }
    }

    lemma {:induction false} InsertedAreKnown(r: seq<Entry<VirtualDeviceManager>>, e: Entry<VirtualDeviceManager>)
      ensures forall f :: f in Insert(r, e) ==> f == e || f in r
    {
      if r != [] && !Before(e.node, r[0].node) {
        InsertedAreKnown(r[1..], e);
      }
    }

    method Close(h: int, a: Answers) returns (code: Code)
      requires Valid()
      modifies this, all, devices
      ensures Valid()
      ensures Sessions.Result(code, View()) == CloseSession(old(View()), h, a)
    {
      hide VirtualDevice.Close, Find, Step, Returned, ManagerOf;
      if h == INVALID_ID {
        return WrongParam;
      }
      var i := FindEntry(h);
      if i == |registry| {
        return AlreadyClosed;
      }
      ghost var s := View();
      CloseFound(s, h, a);
      hide CloseSession;
      code := CallOn(registry[i].manager, DoClose(h), a);
      hide Valid, RemoveAt;
      ReturnedKeepsRegistry(s, registry[i].manager,
                            Step(ManagerOf(s, registry[i].manager), s.devices, DoClose(h), a));
      if code == OK || code == AlreadyClosed {
        RemoveEntry(h);
      }
    }

    /** startCamera, stopCamera, startPreview, stopPreview, startCapture, stopCapture, setFormat and
        setProperty: route the call to the manager of the handle. */
    method Route(op: Op, a: Answers) returns (code: Code)
      requires Valid() && !op.DoOpen? && !op.DoClose?
      modifies this, all, devices
      ensures Valid() && all == old(all) && registry == old(registry)
      ensures Sessions.Result(code, View()) == Sessions.Route(old(View()), op, a)
    {
      if Target(op) == INVALID_ID {
        return WrongParam;
      }
      var i := FindEntry(Target(op));
      if i == |registry| {
        return Unknown;
      }
      code := CallOn(registry[i].manager, op, a);
    }

    method SetClientDevice(h: int, name: string) returns (ok: bool)
      requires Valid()
      modifies this`registry
      ensures Valid()
      ensures View() == SetClient(old(View()), h, name)
      ensures ok <==> h != INVALID_ID && exists e :: e in old(registry) && e.handle == h
    {
      if h == INVALID_ID {
        return false;
      }
      var i := FindEntry(h);
      if i == |registry| {
        return false;
      }
      registry := registry[i := registry[i].(client := name)];
      return true;
    }

    method GetDeviceState(h: int) returns (state: CamState)
      requires Valid()
      ensures state == StateOf(View(), h)
    {
      var i := FindEntry(h);
      if i == |registry| {
        return Closed;
      }
      var m := registry[i].manager;
      return if h in m.handles then m.handles[h].state else Closed;
    }

    method StopDevice(e: Entry<VirtualDeviceManager>, a: Answers)
      requires Valid() && e in registry
      modifies this, all, devices
      ensures Valid() && all == old(all) && registry == old(registry)
      ensures View() == StopAll(old(View()), e, a)
    {
      hide StopCapture, StopCamera, StopPreview, Sessions.Route, Find;
      var _ := CallOn(e.manager, DoStopCapture(e.handle, true), a);
      var state := GetDeviceState(e.handle);
      if state == Streaming {
        var _ := Route(DoStopCamera(e.handle), a);
      } else if state == Preview {
        var _ := Route(DoStopPreview(e.handle), a);
      }
    }

    method StopAndCloseDevice(e: Entry<VirtualDeviceManager>, a: Answers)
      requires Valid() && e in registry
      modifies this, all, devices
      ensures Valid() && all == old(all) && registry == old(registry)
      ensures View() == StopAndClose(old(View()), e, a)
    {
      hide VirtualDevice.Close, StopAll;
      StopDevice(e, a);
      var _ := CallOn(e.manager, DoClose(e.handle), a);
    }

    /** What each teardown loop does with a matching entry. */
    method StopCloseAndErase(i: nat, a: Answers)
      requires Valid() && i < |registry|
      modifies this, all, devices
      ensures Valid() && all == old(all) && registry == RemoveAt(old(registry), i)
      ensures View() == StopAndClose(old(View()), old(registry)[i], a).(registry := RemoveAt(old(registry), i))
    {
      hide StopAndClose;
      StopAndCloseDevice(registry[i], a);
      registry := registry[..i] + registry[i + 1..];
    }

    method CloseClientDevice(clientName: string, answers: nat -> Answers)
      requires Valid()
      modifies this, all, devices
      ensures Valid()
      ensures View() == Teardown(old(View()), 0, OfClient(clientName), answers)
    {
      hide StopAndClose;
      var i := 0;
      while i < |registry|
        invariant Valid() && all == old(all) && i <= |registry|
        invariant Teardown(View(), i, OfClient(clientName), answers) ==
                  Teardown(old(View()), 0, OfClient(clientName), answers)
        decreases |registry| - i
      {
        if clientName == registry[i].client {
          StopCloseAndErase(i, answers(|registry| - 1 - i));
        } else {
          i := i + 1;
        }
      }
    }

    method Release(deviceId: int, answers: nat -> Answers)
      requires Valid()
      modifies this, all, devices
      ensures Valid() && all == old(all)
      ensures View() == Teardown(old(View()), 0, OfDevice(deviceId), answers)
    {
      hide StopAndClose;
      var i := 0;
      while i < |registry|
        invariant Valid() && all == old(all) && i <= |registry|
        invariant Teardown(View(), i, OfDevice(deviceId), answers) ==
                  Teardown(old(View()), 0, OfDevice(deviceId), answers)
        decreases |registry| - i
      {
        if deviceId == registry[i].deviceId {
          StopCloseAndErase(i, answers(|registry| - 1 - i));
        } else {
          i := i + 1;
        }
      }
    }

    method HandleCrash(answers: nat -> Answers)
      requires Valid()
      modifies this, all, devices
      ensures Valid()
      ensures View() == Teardown(old(View()), 0, Everyone, answers)
    {
      hide StopAndClose;
      while |registry| > 0
        invariant Valid() && all == old(all)
        invariant Teardown(View(), 0, Everyone, answers) == Teardown(old(View()), 0, Everyone, answers)
        decreases |registry|
      {
        StopCloseAndErase(0, answers(|registry| - 1));
      }
    }

    // ---- hot-plug: the device manager calling back ----

    /** removeDevice: release an open device, then forget it. */
    method RemoveDevice(deviceId: int, answers: nat -> Answers) returns (ok: bool)
      requires Valid()
      modifies this, all, devices
      ensures Valid() && all == old(all) && (ok <==> deviceId in old(devices.deviceMap))
      ensures View() == WithoutDevice(old(View()), deviceId, answers)
    {
      hide Teardown;
      if deviceId !in devices.deviceMap {
        return false;
      }
      if devices.deviceMap[deviceId].open {
        Release(deviceId, answers);
      }
      devices.EraseDevice(deviceId);
      return true;
    }

    /** updateDeviceList: `answers(k)` are given while the k-th unplugged device is released. The device map
        is reconciled with the list exactly, and the registry loses exactly the entries of devices that
        were open and are not listed any more. */
    method UpdateDeviceList(deviceType: string, deviceList: seq<DeviceInfo>, answers: nat -> nat -> Answers)
      requires Valid() && Healthy(View(), iset{})
      modifies this, all, devices
      ensures Valid() && Healthy(View(), iset{})
      ensures devices.deviceMap == Updated(old(devices.deviceMap), deviceType, deviceList)
      ensures forall e :: e in registry <==>
        e in old(registry) && !(Unplugged(old(devices.deviceMap), deviceType, deviceList, e.deviceId)
                                && IsOpen(old(devices.deviceMap), e.deviceId))
    {
      hide Healthy, Released, Unplugged, WithoutUnplugged, WithPlugged, Unplugging.IdsOf, WithoutDevices;
      ghost var s := View();
      var ids := devices.FindUnplugged(deviceType, deviceList);
      RemoveDevices(ids, answers);
      UnplugsAreExact(s, ids, answers);
      ErasedAreUnplugged(s.devices, deviceType, deviceList, ids);
      ghost var t := View();
      PlugsHealthy(t, deviceType, deviceList, |deviceList|, iset{});
      devices.AddPlugged(deviceType, deviceList);
      assert View() == t.(devices := devices.deviceMap);
    }

    /** The loop over the unplugged ids. */
    method RemoveDevices(ids: seq<int>, answers: nat -> nat -> Answers)
      requires Valid()
      modifies this, all, devices
      ensures Valid() && all == old(all)
      ensures View() == WithoutDevices(old(View()), ids, answers)
    {
      hide WithoutDevice;
      for k := 0 to |ids|
        invariant Valid() && all == old(all)
        invariant View() == WithoutDevices(old(View()), ids[..k], answers)
      {
        assert ids[..k + 1][..k] == ids[..k];
        var _ := RemoveDevice(ids[k], answers(k));
      }
      assert ids[..|ids|] == ids;
    }
  }
}
