/** What unplugging a camera does to the registry and the managers: an open device is released, then forgotten. */
module Unplugging {
  import opened DeviceManager
  import opened VirtualDevice
  import opened Sessions
  import opened SessionHealth
  import opened SessionTeardown

  /** What removeDevice leaves: exactly the device is gone from the map, with the status of every other one
      as it was, and the entries of an open device are gone from the registry. */
  lemma UnplugIsExact<K>(s: System<K>, id: int, answers: nat -> Answers, calm: iset<string>)
    requires Healthy(s, calm)
    ensures var t := WithoutDevice(s, id, answers);
            && t.devices == s.devices - {id}
            && t.registry == if IsOpen(s.devices, id) then Remaining(s.registry, OfDevice(id)) else s.registry
  {
    if IsOpen(s.devices, id) {
      hide Teardown, Healthy;
      TeardownIsExact(s, OfDevice(id), answers, calm);
      ReleaseTouches(s, 0, id, answers, calm);
      assert SetStatus(s.devices, id, false) - {id} == s.devices - {id};
    }
  }

  /** No manager in use at a calm node has a registered handle of device `id`. */
  ghost predicate FreeOf<K>(s: System<K>, id: int, calm: iset<string>) {
    forall e, h :: e in s.registry && e.node in calm && h in ManagerOf(s, e.manager).priority ==>
      h in ManagerOf(s, e.manager).handles && ManagerOf(s, e.manager).handles[h].deviceId != id
  }

  /** Erasing a device with no entries keeps what the registry promises exactly if none of its handles is
      left registered. */
  lemma EraseHealthy<K>(s: System<K>, id: int, calm: iset<string>)
    requires Healthy(s, calm)
    requires IsOpen(s.devices, id) ==> forall e :: e in s.registry ==> e.deviceId != id
    ensures Healthy(s.(devices := s.devices - {id}), calm) <==> FreeOf(s, id, calm)
  {
    var t := s.(devices := s.devices - {id});
    if FreeOf(s, id, calm) {
      forall e | e in s.registry ensures Served(t, e, calm) {
        assert Served(s, e, calm) && ManagerOf(s, e.manager) == s.managers[e.manager];
      }
    }
    if Healthy(t, calm) {
      forall e, h | e in s.registry && e.node in calm && h in ManagerOf(s, e.manager).priority
        ensures h in ManagerOf(s, e.manager).handles && ManagerOf(s, e.manager).handles[h].deviceId != id
      {
        assert Served(t, e, calm);
      }
    }
  }

  /** Release takes all entries of an open device. */
  lemma ReleaseClears<K>(s: System<K>, id: int, answers: nat -> Answers, calm: iset<string>)
    requires Healthy(s, calm)
    ensures Healthy(AfterRelease(s, id, answers), calm)
    ensures IsOpen(AfterRelease(s, id, answers).devices, id) ==> IsOpen(s.devices, id)
    ensures NodeOf(AfterRelease(s, id, answers).devices, id) == NodeOf(s.devices, id)
    ensures forall e :: e in AfterRelease(s, id, answers).registry ==> e in s.registry
    ensures forall e :: e in AfterRelease(s, id, answers).registry && IsOpen(s.devices, id) ==> e.deviceId != id
  {
    if IsOpen(s.devices, id) {
      var t := Teardown(s, 0, OfDevice(id), answers);
      TeardownHealthy(s, 0, OfDevice(id), answers, calm);
      TeardownIsExact(s, OfDevice(id), answers, calm);
      ReleaseTouches(s, 0, id, answers, calm);
      hide Teardown, Healthy, Remaining;
      forall e | e in t.registry ensures e in s.registry && e.deviceId != id {
        RemainingAre(s.registry, OfDevice(id), e);
      }
    }
  }

  /** Unplugging keeps what the registry promises of its entries, at every node. What it promises of all
      registered handles of a calm node, also of those whose entry went although closing them was refused,
      it keeps exactly if release left no registered handle of the device there. */
  lemma ForgottenHealthy<K>(s: System<K>, id: int, answers: nat -> Answers, calm: iset<string>)
    requires Healthy(s, calm)
    ensures Healthy(WithoutDevice(s, id, answers), calm) <==> FreeOf(AfterRelease(s, id, answers), id, calm)
  {
    hide Healthy, FreeOf, AfterRelease;
    ReleaseClears(s, id, answers, calm);
    var t := AfterRelease(s, id, answers);
    EraseHealthy(t, id, calm);
    if id !in s.devices {
      NotReleased(s, id, answers);
      assert t.devices - {id} == t.devices;
    }
  }

  lemma NotReleased<K>(s: System<K>, id: int, answers: nat -> Answers)
    requires !IsOpen(s.devices, id)
    ensures AfterRelease(s, id, answers) == s
  {
  }

  function IdsOf(ids: seq<int>): set<int> {
    set id | id in ids
  }

  /** The device is gone and was open before: its entries went with it. */
  predicate Released(ds: DeviceMap, ids: seq<int>, id: int) {
    id in ids && IsOpen(ds, id)
  }

  lemma UnplugKeepsEntry<K>(s: System<K>, id: int, answers: nat -> Answers, e: Entry<K>, calm: iset<string>)
    requires Healthy(s, calm)
    ensures e in WithoutDevice(s, id, answers).registry <==>
            e in s.registry && !(e.deviceId == id && IsOpen(s.devices, id))
  {
    hide Healthy, Remaining, WithoutDevice;
    UnplugIsExact(s, id, answers, calm);
    RemainingAre(s.registry, OfDevice(id), e);
  }

  lemma SetMinusOne(ds: DeviceMap, ids: seq<int>)
    requires ids != []
    ensures ds - IdsOf(ids) == ds - IdsOf(ids[..|ids| - 1]) - {ids[|ids| - 1]}
  {
    assert ids == ids[..|ids| - 1] + [ids[|ids| - 1]];
  }

  lemma {:induction false} UnplugsHealthy<K>(s: System<K>, ids: seq<int>, answers: nat -> nat -> Answers)
    requires Healthy(s, iset{})
    ensures Healthy(WithoutDevices(s, ids, answers), iset{})
    ensures WithoutDevices(s, ids, answers).devices == s.devices - IdsOf(ids)
  {
    if ids == [] {
      assert s.devices - {} == s.devices;
    } else {
      var n := |ids| - 1;
      hide WithoutDevice, Healthy;
      UnplugsHealthy(s, ids[..n], answers);
      var u := WithoutDevices(s, ids[..n], answers);
      UnplugIsExact(u, ids[n], answers(n), iset{});
      ForgottenHealthy(u, ids[n], answers(n), iset{});
      assert FreeOf(AfterRelease(u, ids[n], answers(n)), ids[n], iset{});
      SetMinusOne(s.devices, ids);
    }
  }

  lemma {:induction false} UnplugsKeepEntry<K>(s: System<K>, ids: seq<int>, answers: nat -> nat -> Answers, e: Entry<K>)
    requires Healthy(s, iset{})
    ensures e in WithoutDevices(s, ids, answers).registry <==> e in s.registry && !Released(s.devices, ids, e.deviceId)
  {
    if ids != [] {
      var n := |ids| - 1;
      hide WithoutDevice, Healthy;
      var u := WithoutDevices(s, ids[..n], answers);
      UnplugsKeepEntry(s, ids[..n], answers, e);
      UnplugsHealthy(s, ids[..n], answers);
      UnplugKeepsEntry(u, ids[n], answers(n), e, iset{});
      assert ids == ids[..n] + [ids[n]];
    }
  }

  /** Hot-plug reconciliation and sessions: the listed ids go from the device map, all others keep their
      status, and exactly the entries of the open ones among them go from the registry. */
  lemma UnplugsAreExact<K>(s: System<K>, ids: seq<int>, answers: nat -> nat -> Answers)
    requires Healthy(s, iset{})
    ensures var t := WithoutDevices(s, ids, answers);
            && Healthy(t, iset{})
            && t.devices == s.devices - IdsOf(ids)
            && (forall e :: e in t.registry ==> e in s.registry && !Released(s.devices, ids, e.deviceId))
            && (forall e :: e in s.registry && !Released(s.devices, ids, e.deviceId) ==> e in t.registry)
  {
    hide WithoutDevices, Healthy, Released;
    UnplugsHealthy(s, ids, answers);
    var t := WithoutDevices(s, ids, answers);
    forall e | e in t.registry ensures e in s.registry && !Released(s.devices, ids, e.deviceId) {
      UnplugsKeepEntry(s, ids, answers, e);
    }
    forall e | e in s.registry && !Released(s.devices, ids, e.deviceId) ensures e in t.registry {
      UnplugsKeepEntry(s, ids, answers, e);
    }
  }

  lemma {:induction false} PlugsHealthy<K>(s: System<K>, t: string, list: seq<DeviceInfo>, k: nat, calm: iset<string>)
    requires k <= |list| && Healthy(s, calm)
    ensures Healthy(s.(devices := WithPlugged(s.devices, t, list, k)), calm)
  {
    if k > 0 {
      hide Healthy, Added;
      PlugsHealthy(s, t, list, k - 1, calm);
      PlugHealthy(s.(devices := WithPlugged(s.devices, t, list, k - 1)), list[k - 1], calm);
    } else {
      assert s.(devices := s.devices) == s;
    }
  }
}
