/** The map of plugged-in devices, and its reconciliation with what a notifier reports. */
module DeviceManager {

  const MAX_DEVICE_COUNT: nat := 10

  /** What a notifier says about a device: its type, its node, and everything else. */
  datatype DeviceInfo = DeviceInfo(deviceType: string, node: string, details: string)

  datatype DeviceStatus = DeviceStatus(info: DeviceInfo, open: bool)

  type DeviceMap = map<int, DeviceStatus>

  predicate IsOpen(m: DeviceMap, id: int) {
    id in m && m[id].open
  }

  function SetStatus(m: DeviceMap, id: int, open: bool): DeviceMap {
    if id in m then m[id := m[id].(open := open)] else m
  }

  function NodeOf(m: DeviceMap, id: int): string {
    if id in m then m[id].info.node else ""
  }

  /** `id` is a device of type `t` at node `node`. */
  predicate IsAt(m: DeviceMap, id: int, t: string, node: string) {
    id in m && m[id].info.deviceType == t && m[id].info.node == node
  }

  predicate Present(m: DeviceMap, t: string, node: string) {
    exists id | id in m :: IsAt(m, id, t, node)
  }

  predicate Listed(list: seq<DeviceInfo>, node: string) {
    exists i | 0 <= i < |list| :: list[i].node == node
  }

  /** The lowest id from `from` on that is free, 0 when none is. */
  function FreeId(m: DeviceMap, from: nat): (id: nat)
    ensures id != 0 ==> from <= id <= MAX_DEVICE_COUNT && id !in m
    ensures id != 0 && from > 0 ==> forall i :: from <= i < id ==> i in m
    ensures id == 0 && from > 0 ==> forall i :: from <= i <= MAX_DEVICE_COUNT ==> i in m
    decreases MAX_DEVICE_COUNT + 1 - from
  {
    if from > MAX_DEVICE_COUNT then 0
    else if from !in m && from > 0 then from
    else FreeId(m, from + 1)
  }

  function Added(m: DeviceMap, info: DeviceInfo): DeviceMap {
    var id := FreeId(m, 1);
    if id == 0 then m else m[id := DeviceStatus(info, false)]
  }

  predicate Unplugged(m: DeviceMap, t: string, list: seq<DeviceInfo>, id: int) {
    id in m && m[id].info.deviceType == t && !Listed(list, m[id].info.node)
  }

  function WithoutUnplugged(m: DeviceMap, t: string, list: seq<DeviceInfo>): DeviceMap {
    map id | id in m && !Unplugged(m, t, list, id) :: m[id]
  }

  /** The adding pass over the first `k` entries of the list. */
  function WithPlugged(m: DeviceMap, t: string, list: seq<DeviceInfo>, k: nat): DeviceMap
    requires k <= |list|
  {
    if k == 0 then m
    else
      var before := WithPlugged(m, t, list, k - 1);
      if Present(before, t, list[k - 1].node) then before else Added(before, list[k - 1])
  }

  function Updated(m: DeviceMap, t: string, list: seq<DeviceInfo>): DeviceMap {
    WithPlugged(WithoutUnplugged(m, t, list), t, list, |list|)
  }

  // ---- what reconciliation promises ----

  ghost predicate IdsInRange(m: DeviceMap) {
    forall id :: id in m ==> 1 <= id <= MAX_DEVICE_COUNT
  }

  /** No two ids stand for the same node of the same type. */
  ghost predicate PairsUnique(m: DeviceMap) {
    forall i, j :: i in m && j in m && i != j ==>
      m[i].info.deviceType != m[j].info.deviceType || m[i].info.node != m[j].info.node
  }

  ghost predicate AllOfType(list: seq<DeviceInfo>, t: string) {
    forall i :: 0 <= i < |list| ==> list[i].deviceType == t
  }

  ghost function IdsOf(m: DeviceMap, t: string): set<int> {
    set id | id in m && m[id].info.deviceType == t
  }

  ghost function NodesOf(m: DeviceMap, t: string): set<string> {
    set id | id in m && m[id].info.deviceType == t :: m[id].info.node
  }

  ghost function NodesAmong(m: DeviceMap, ids: set<int>): set<string>
    requires ids <= m.Keys
  {
    set id | id in ids :: m[id].info.node
  }

  ghost function ListedNodes(list: seq<DeviceInfo>): set<string> {
    set i | 0 <= i < |list| :: list[i].node
  }

  ghost predicate Full(m: DeviceMap) {
    forall i :: 1 <= i <= MAX_DEVICE_COUNT ==> i in m
  }

  /** What the adding pass keeps and brings about, after `k` entries. */
  ghost predicate PluggedSoFar(m: DeviceMap, n: DeviceMap, t: string, list: seq<DeviceInfo>, k: nat)
    requires k <= |list|
  {
    && IdsInRange(n) && PairsUnique(n)
    && (forall id :: id in m ==> id in n && n[id] == m[id])
    && (forall id :: id in n && id !in m ==> !n[id].open && n[id].info in list[..k])
    && (forall i :: 0 <= i < k ==> Present(n, t, list[i].node) || Full(n))
  }

  lemma {:induction false} PluggedKeeps(m: DeviceMap, t: string, list: seq<DeviceInfo>, k: nat)
    requires k <= |list| && IdsInRange(m) && PairsUnique(m) && AllOfType(list, t)
    ensures PluggedSoFar(m, WithPlugged(m, t, list, k), t, list, k)
  {
    if k == 0 {
    } else {
      PluggedKeeps(m, t, list, k - 1);
      PlugOne(m, WithPlugged(m, t, list, k - 1), t, list, k);
    }
  }

  lemma PlugOne(m: DeviceMap, before: DeviceMap, t: string, list: seq<DeviceInfo>, k: nat)
    requires 1 <= k <= |list| && AllOfType(list, t)
    requires PluggedSoFar(m, before, t, list, k - 1)
    ensures PluggedSoFar(m, if Present(before, t, list[k - 1].node) then before else Added(before, list[k - 1]),
                         t, list, k)
  {
    var info := list[k - 1];
    var now := if Present(before, t, info.node) then before else Added(before, info);
    assert list[..k] == list[..k - 1] + [info];
    var id := FreeId(before, 1);
    if !Present(before, t, info.node) && id != 0 {
      assert forall i :: i in before ==> !IsAt(before, i, t, info.node);
      assert IsAt(now, id, t, info.node);
    }
    forall i | 0 <= i < k ensures Present(now, t, list[i].node) || Full(now) {
      if i < k - 1 && Present(before, t, list[i].node) {
        var j :| j in before && IsAt(before, j, t, list[i].node);
        assert IsAt(now, j, t, list[i].node);
      }
    }
  }

  lemma WithoutUnpluggedKeeps(m: DeviceMap, t: string, list: seq<DeviceInfo>)
    requires IdsInRange(m) && PairsUnique(m)
    ensures IdsInRange(WithoutUnplugged(m, t, list)) && PairsUnique(WithoutUnplugged(m, t, list))
  {
  }

  /** Reconciliation leaves devices of other types, and devices that stay, as they are; it adds only
      listed ones, closed; and it keeps ids within 1..10 and one id per node and type. */
  lemma UpdateKeeps(m: DeviceMap, t: string, list: seq<DeviceInfo>)
    requires IdsInRange(m) && PairsUnique(m) && AllOfType(list, t)
    ensures var n := Updated(m, t, list);
            && IdsInRange(n) && PairsUnique(n)
            && (forall id :: id in m && !Unplugged(m, t, list, id) ==> id in n && n[id] == m[id])
            && (forall id :: id in n && n[id].info.deviceType != t ==> id in m && n[id] == m[id])
            && (forall id :: id in n && (id !in m || Unplugged(m, t, list, id)) ==> !n[id].open && n[id].info in list)
  {
    WithoutUnpluggedKeeps(m, t, list);
    PluggedKeeps(WithoutUnplugged(m, t, list), t, list, |list|);
    assert list[..|list|] == list;
  }

  /** Afterwards the devices of that type are exactly the listed nodes if the map has room for them all;
      and whenever some are missing the map is full. */
  lemma UpdateYieldsTheList(m: DeviceMap, t: string, list: seq<DeviceInfo>)
    requires IdsInRange(m) && PairsUnique(m) && AllOfType(list, t)
    ensures var n := Updated(m, t, list);
            && NodesOf(n, t) <= ListedNodes(list)
            && (NodesOf(n, t) != ListedNodes(list) ==> Full(n))
            && (|m.Keys - IdsOf(m, t)| + |ListedNodes(list)| <= MAX_DEVICE_COUNT ==>
                  NodesOf(n, t) == ListedNodes(list))
  {
    var n := Updated(m, t, list);
    UpdateKeeps(m, t, list);
    OnlyListed(m, t, list);
    MissingMeansFull(m, t, list);
    if |m.Keys - IdsOf(m, t)| + |ListedNodes(list)| <= MAX_DEVICE_COUNT && NodesOf(n, t) != ListedNodes(list) {
      OthersStay(m, t, list);
      FullHasTen(n);
      NodesCount(n, t, IdsOf(n, t));
      ProperSubsetIsSmaller(NodesOf(n, t), ListedNodes(list));
      CardinalitySplit(n.Keys, IdsOf(n, t));
      assert false;
    }
  }

  lemma OnlyListed(m: DeviceMap, t: string, list: seq<DeviceInfo>)
    requires IdsInRange(m) && PairsUnique(m) && AllOfType(list, t)
    ensures NodesOf(Updated(m, t, list), t) <= ListedNodes(list)
  {
    var n := Updated(m, t, list);
    UpdateKeeps(m, t, list);
    WithoutUnpluggedKeeps(m, t, list);
    PluggedKeeps(WithoutUnplugged(m, t, list), t, list, |list|);
    forall id | id in n && n[id].info.deviceType == t ensures n[id].info.node in ListedNodes(list) {
      if id in m && !Unplugged(m, t, list, id) {
        var i :| 0 <= i < |list| && list[i].node == m[id].info.node;
      } else {
        var i :| 0 <= i < |list| && list[i] == n[id].info;
      }
    }
  }

  lemma MissingMeansFull(m: DeviceMap, t: string, list: seq<DeviceInfo>)
    requires IdsInRange(m) && PairsUnique(m) && AllOfType(list, t)
    ensures ListedNodes(list) <= NodesOf(Updated(m, t, list), t) || Full(Updated(m, t, list))
  {
    var n := Updated(m, t, list);
    WithoutUnpluggedKeeps(m, t, list);
    PluggedKeeps(WithoutUnplugged(m, t, list), t, list, |list|);
    if !Full(n) {
      forall i | 0 <= i < |list| ensures list[i].node in NodesOf(n, t) {
        assert Present(n, t, list[i].node);
        var id :| id in n && IsAt(n, id, t, list[i].node);
      }
    }
  }

  lemma OthersStay(m: DeviceMap, t: string, list: seq<DeviceInfo>)
    requires IdsInRange(m) && PairsUnique(m) && AllOfType(list, t)
    ensures var n := Updated(m, t, list); n.Keys - IdsOf(n, t) == m.Keys - IdsOf(m, t)
  {
    var n := Updated(m, t, list);
    UpdateKeeps(m, t, list);
    forall id ensures id in n.Keys - IdsOf(n, t) <==> id in m.Keys - IdsOf(m, t) {
      if id in m && m[id].info.deviceType != t {
        assert !Unplugged(m, t, list, id);
      }
    }
  }

  lemma ProperSubsetIsSmaller(a: set<string>, b: set<string>)
    requires a <= b && a != b
    ensures |a| < |b|
  {
    var x :| x in b && x !in a;
    var rest := b - {x};
    SubsetIsSmaller(a, rest);
  }

  lemma {:induction false} SubsetIsSmaller(a: set<string>, b: set<string>)
    requires a <= b
    ensures |a| <= |b|
  {
    if a == {} {
    } else {
      var x :| x in a;
      SubsetIsSmaller(a - {x}, b - {x});
    }
  }

  lemma CardinalitySplit(a: set<int>, b: set<int>)
    requires b <= a
    ensures |a| == |b| + |a - b|
  {
  }

  lemma FullHasTen(m: DeviceMap)
    requires Full(m) && IdsInRange(m)
    ensures |m.Keys| == MAX_DEVICE_COUNT
  {
    var ten: set<int> := {1, 2, 3, 4, 5, 6, 7, 8, 9, 10};
    forall id ensures id in m.Keys <==> id in ten {
      if id in ten { assert 1 <= id <= MAX_DEVICE_COUNT; }
      if id in m { assert 1 <= id <= MAX_DEVICE_COUNT; }
    }
    assert m.Keys == ten;
  }

  lemma Pick<T>(s: set<T>) returns (x: T)
    requires s != {}
    ensures x in s
  {
    x :| x in s;
  }

  /** One node per id: within a type, as many nodes as ids. */
  lemma {:induction false} NodesCount(m: DeviceMap, t: string, ids: set<int>)
    requires PairsUnique(m) && ids <= IdsOf(m, t)
    ensures |NodesAmong(m, ids)| == |ids|
    ensures ids == IdsOf(m, t) ==> NodesAmong(m, ids) == NodesOf(m, t)
    decreases ids
  {
    if ids == {} {
    } else {
      var x := Pick(ids);
      NodesCount(m, t, ids - {x});
      assert NodesAmong(m, ids) == NodesAmong(m, ids - {x}) + {m[x].info.node};
    }
  }

  /** A second report of the same list changes nothing, full map or not. */
  lemma UpdateIsIdempotent(m: DeviceMap, t: string, list: seq<DeviceInfo>)
    requires IdsInRange(m) && PairsUnique(m) && AllOfType(list, t)
    ensures Updated(Updated(m, t, list), t, list) == Updated(m, t, list)
  {
    var n := Updated(m, t, list);
    OnlyListed(m, t, list);
    MissingMeansFull(m, t, list);
    forall id | id in n ensures !Unplugged(n, t, list, id) {
      if n[id].info.deviceType == t {
        assert n[id].info.node in NodesOf(n, t);
        var i :| 0 <= i < |list| && list[i].node == n[id].info.node;
      }
    }
    assert WithoutUnplugged(n, t, list) == n;
    NothingToAdd(n, t, list, |list|);
  }

  lemma {:induction false} NothingToAdd(n: DeviceMap, t: string, list: seq<DeviceInfo>, k: nat)
    requires k <= |list|
    requires ListedNodes(list) <= NodesOf(n, t) || Full(n)
    ensures WithPlugged(n, t, list, k) == n
  {
    if k > 0 {
      NothingToAdd(n, t, list, k - 1);
      if !Full(n) {
        assert list[k - 1].node in ListedNodes(list);
        var id :| id in n && n[id].info.deviceType == t && n[id].info.node == list[k - 1].node;
        assert IsAt(n, id, t, list[k - 1].node);
      }
    }
  }

  // ---- the manager itself ----

  /** The iterator of a loop over a container. */
  method Take<T(==)>(s: set<T>) returns (x: T)
    requires s != {}
    ensures x in s
  {
    x :| x in s;
  }

  class DeviceManager {
    var deviceMap: DeviceMap

    constructor ()
      ensures deviceMap == map[]
    {
      deviceMap := map[];
    }

    method SetDeviceStatus(deviceid: int, status: bool) returns (ok: bool)
      modifies this
      ensures ok <==> deviceid in old(deviceMap)
      ensures deviceMap == SetStatus(old(deviceMap), deviceid, status)
    {
      if deviceid !in deviceMap {
        return false;
      }
      deviceMap := deviceMap[deviceid := deviceMap[deviceid].(open := status)];
      return true;
    }

    /** Take the lowest free id for the device, or 0 when all ten are in use. */
    method AddDevice(info: DeviceInfo) returns (deviceid: int)
      modifies this
      ensures deviceMap == Added(old(deviceMap), info)
      ensures deviceid == FreeId(old(deviceMap), 1)
    {
      deviceid := 0;
      var i := 1;
      while i <= MAX_DEVICE_COUNT && deviceid == 0
        invariant 1 <= i <= MAX_DEVICE_COUNT + 1
        invariant if deviceid == 0 then FreeId(deviceMap, i) == FreeId(deviceMap, 1)
                  else deviceid == FreeId(deviceMap, 1)
        decreases MAX_DEVICE_COUNT + 1 - i, deviceid == 0
      {
        if i !in deviceMap {
          deviceid := i;
        } else {
          i := i + 1;
        }
      }
      if deviceid == 0 {
        return 0;
      }
      deviceMap := deviceMap[deviceid := DeviceStatus(info, false)];
    }

    /** The erasure of removeDevice; releasing the device before is the registry's part. */
    method EraseDevice(deviceid: int)
      modifies this
      ensures deviceMap == old(deviceMap) - {deviceid}
    {
      deviceMap := deviceMap - {deviceid};
    }

    /** The first loop of updateDeviceList: the ids that went away, each once. */
    method FindUnplugged(deviceType: string, deviceList: seq<DeviceInfo>) returns (ids: seq<int>)
      ensures forall id :: id in ids <==> Unplugged(deviceMap, deviceType, deviceList, id)
    {
      ids := [];
      var todo := deviceMap.Keys;
      while todo != {}
        invariant todo <= deviceMap.Keys
        invariant forall id :: id in ids <==> id !in todo && Unplugged(deviceMap, deviceType, deviceList, id)
        decreases todo
      {
        var id := Take(todo);
        todo := todo - {id};
        if deviceMap[id].info.deviceType == deviceType && !Listed(deviceList, deviceMap[id].info.node) {
          ids := ids + [id];
        }
      }
    }

    /** The last loop of updateDeviceList: add what is listed and not there. */
    method AddPlugged(deviceType: string, deviceList: seq<DeviceInfo>)
      modifies this
      ensures deviceMap == WithPlugged(old(deviceMap), deviceType, deviceList, |deviceList|)
    {
      ghost var was := deviceMap;
      for k := 0 to |deviceList|
        invariant deviceMap == WithPlugged(was, deviceType, deviceList, k)
      {
        if !Present(deviceMap, deviceType, deviceList[k].node) {
          var _ := AddDevice(deviceList[k]);
        }
      }
    }
  }
}
