/** When a registration outlives its device: an entry of another device stands at the node, and the HAL
    process refuses to let go of a streaming handle while its device is unplugged. */
module StaleRegistrations {
  import opened Wrappers
  import opened DeviceManager
  import opened VirtualDevice
  import opened BackedHandles
  import opened Sessions
  import opened SessionHealth
  import opened SessionTeardown
  import opened SessionRuns
  import opened StaleEntries

  const WILLING_TOO: Answers := WILLING.(draws := [8])
  const CLINGING: Answers := WILLING.(removeClient := Unknown)

  /** Devices 1 and 2, which may share a node when their types differ. */
  function Pair(x: DeviceInfo, xOpen: bool, y: DeviceInfo): DeviceMap {
    map[1 := DeviceStatus(x, xOpen), 2 := DeviceStatus(y, false)]
  }

  function Fresh<K>(x: DeviceInfo, y: DeviceInfo): System<K> {
    System([], map[], Pair(x, false, y))
  }

  /** Open device 1 and stream, open device 2, unplug device 1. */
  function StreamAndUnplug<K>(spare: K): seq<Turn<K>> {
    [Turn(Opens(1, "", spare), _ => WILLING), Turn(Calls(DoStartCamera(7)), _ => WILLING),
     Turn(Opens(2, "", spare), _ => WILLING_TOO), Turn(Unplugs(1), _ => CLINGING)]
  }

  /** Handle 7 of device 1 streams. */
  predicate Streams(v: Vdm) {
    && 7 in v.handles && v.handles[7] == DevState(1, Streaming) && 7 in v.priority
    && v.captures == [] && 7 in v.streaming
  }

  lemma OpenFirst<K>(spare: K, x: DeviceInfo, y: DeviceInfo)
    ensures var s := OpenSession(Fresh<K>(x, y), 1, "", spare, WILLING).system;
            && s.registry == [Entry(x.node, spare, 7, 1, "")] && s.devices == Pair(x, true, y)
            && s.managers == map[spare := OPENED]
  {
    var ds := Pair(x, false, y);
    var o := Open(INITIAL, ds, 1, "", WILLING);
    assert FirstFree([7], {}) == Some(7);
    var calls := INITIAL.hal.calls + [CreateHal] + [HalOpen];
    assert calls == [CreateHal, HalOpen];
    assert map[][7 := DevState(1, Opened)] == map[7 := DevState(1, Opened)];
    assert o == OpenOut(OK, 7, OPENED, Pair(x, true, y));
  }

  lemma StartsToStream(ds: DeviceMap)
    requires IsOpen(ds, 1)
    ensures var o := StartCamera(OPENED, ds, 7, WILLING);
            o.code == OK && Streams(o.vdm) && o.devices == ds && o.vdm.handles.Keys == {7}
  {
  }

  lemma OpensSecond(v: Vdm, ds: DeviceMap)
    requires Streams(v) && v.handles.Keys == {7} && 2 in ds && !IsOpen(ds, 2)
    ensures var o := Open(v, ds, 2, "", WILLING_TOO);
            o.code == OK && o.handle == 8 && Streams(o.vdm) && o.devices == SetStatus(ds, 2, true)
  {
    assert FirstFree([8], {7}) == Some(8);
  }

  /** Nothing changes but the log. */
  lemma Clings(v: Vdm, ds: DeviceMap)
    requires Streams(v) && IsOpen(ds, 1)
    ensures Streams(Close(Stopped(v, ds, 7, CLINGING), ds, 7, CLINGING).vdm)
  {
  }

  /** The system after the first three events. */
  ghost predicate Ready<K>(s: System<K>, spare: K, x: DeviceInfo, y: DeviceInfo) {
    && s.registry == [Entry(x.node, spare, 7, 1, ""), Entry(y.node, spare, 8, 2, "")]
    && spare in s.managers && Streams(s.managers[spare]) && IsOpen(s.devices, 1)
  }

  lemma RouteFirst<K>(s: System<K>, spare: K, node: string)
    requires s.registry == [Entry(node, spare, 7, 1, "")] && s.managers == map[spare := OPENED] && IsOpen(s.devices, 1)
    ensures var t := Route(s, DoStartCamera(7), WILLING).system;
            && t.registry == s.registry && t.devices == s.devices
            && spare in t.managers && Streams(t.managers[spare]) && t.managers[spare].handles.Keys == {7}
  {
    hide StartCamera;
    StartsToStream(s.devices);
  }

  lemma OpenNext<K>(s: System<K>, spare: K, x: DeviceInfo, y: DeviceInfo)
    requires s.registry == [Entry(x.node, spare, 7, 1, "")] && s.devices == Pair(x, true, y) && x.node == y.node
    requires spare in s.managers && Streams(s.managers[spare]) && s.managers[spare].handles.Keys == {7}
    ensures Ready(OpenSession(s, 2, "", spare, WILLING_TOO).system, spare, x, y)
  {
    hide Open, Streams;
    OpensSecond(s.managers[spare], s.devices);
    var o := Open(s.managers[spare], s.devices, 2, "", WILLING_TOO);
    var t := OpenSession(s, 2, "", spare, WILLING_TOO).system;
    assert t.registry == Insert(s.registry, Entry(x.node, spare, 8, 2, ""));
    assert t.managers[spare] == o.vdm;
    assert !Before(x.node, x.node) by { NotBefore(x.node); }
  }

  lemma {:induction false} NotBefore(a: string)
    ensures !Before(a, a)
  {
    if a != "" { NotBefore(a[1..]); }
  }

  /** The release of a device that the first of two entries belongs to. */
  lemma TwoRounds<K>(s: System<K>, id: int, answers: nat -> Answers)
    requires |s.registry| == 2 && s.registry[0].deviceId == id != s.registry[1].deviceId
    ensures Teardown(s, 0, OfDevice(id), answers) ==
            StopAndClose(s, s.registry[0], answers(1)).(registry := [s.registry[1]])
  {
    var s1 := StopAndClose(s, s.registry[0], answers(1)).(registry := [s.registry[1]]);
    assert RemoveAt(s.registry, 0) == [s.registry[1]];
    hide StopAndClose, Teardown;
    TeardownRound(s, 0, OfDevice(id), answers);
    TeardownRound(s1, 0, OfDevice(id), answers);
    TeardownEnds(s1, OfDevice(id), answers);
  }

  lemma TeardownEnds<K>(s: System<K>, w: Whose, answers: nat -> Answers)
    requires |s.registry| == 1
    ensures Teardown(s, 1, w, answers) == s
  {
  }

  lemma UnplugFirst<K>(s: System<K>, spare: K, x: DeviceInfo, y: DeviceInfo, answers: nat -> Answers)
    requires Ready(s, spare, x, y) && Healthy(s, iset{}) && answers(1) == CLINGING
    ensures var t := WithoutDevice(s, 1, answers);
            && t.registry == [Entry(y.node, spare, 8, 2, "")] && 1 !in t.devices
            && spare in t.managers && Streams(t.managers[spare])
  {
    StopAndCloseIsLocal(s, s.registry[0], CLINGING, iset{});
    Clings(s.managers[spare], s.devices);
    hide StopAndClose, Streams, Healthy, Teardown, Stopped, Close;
    TwoRounds(s, 1, answers);
  }

  /** The system when device 1 is about to go, reached by the first three events. */
  lemma FirstThree<K>(spare: K, x: DeviceInfo, y: DeviceInfo, rest: seq<Turn<K>>) returns (s: System<K>)
    requires x.node == y.node
    ensures Ready(s, spare, x, y) && Healthy(s, iset{})
    ensures PossibleRun(s, rest) ==> PossibleRun(Fresh<K>(x, y), StreamAndUnplug(spare)[..3] + rest)
    ensures PossibleRun(s, rest) ==> After(Fresh<K>(x, y), StreamAndUnplug(spare)[..3] + rest) == After(s, rest)
  {
    var t := StreamAndUnplug(spare);
    var s0 := Fresh<K>(x, y);
    hide Healthy, OpenSession, Sessions.Route, Drawn, Ready, Streams;
    OpenFirst(spare, x, y);
    var s1 := Next(s0, t[0].event, t[0].answers);
    assert Possible(s0, t[0]);
    assert Healthy(s0, iset{}) by { NothingYet<K>(s0); }
    NextHealthy(s0, t[0], iset{});
    RouteFirst(s1, spare, x.node);
    var s2 := Next(s1, t[1].event, t[1].answers);
    NextHealthy(s1, t[1], iset{});
    OpenNext(s2, spare, x, y);
    assert Possible(s2, t[2]) by { DrawsEight(s2, spare, x, y); }
    s := Next(s2, t[2].event, t[2].answers);
    NextHealthy(s2, t[2], iset{});
    if PossibleRun(s, rest) {
      hide *;
      FirstThenRest(s2, t[2], rest);
      FirstThenRest(s1, t[1], [t[2]] + rest);
      FirstThenRest(s0, t[0], [t[1]] + ([t[2]] + rest));
      assert [t[0]] + ([t[1]] + ([t[2]] + rest)) == t[..3] + rest;
    }
  }

  lemma NothingYet<K>(s: System<K>)
    requires s.registry == [] && s.managers == map[]
    ensures Healthy(s, iset{})
  {
  }

  lemma DrawsEight<K>(s: System<K>, spare: K, x: DeviceInfo, y: DeviceInfo)
    requires s.registry == [Entry(x.node, spare, 7, 1, "")] && s.devices == Pair(x, true, y) && x.node == y.node
    requires spare in s.managers && s.managers[spare].handles.Keys == {7}
    ensures Possible(s, StreamAndUnplug(spare)[2])
  {
    assert FirstFree([8], {7}) == Some(8);
  }

  lemma LastTurn<K>(s: System<K>, spare: K)
    ensures var t := StreamAndUnplug(spare)[3];
            PossibleRun(s, [t]) && After(s, [t]) == WithoutDevice(s, 1, t.answers) && t.answers(1) == CLINGING
  {
    hide WithoutDevice;
    var t := StreamAndUnplug(spare)[3];
    assert [t][1..] == [];
  }

  lemma ItsDeviceIsGone(v: Vdm, ds: DeviceMap, node: string)
    requires Streams(v) && 1 !in ds
    ensures 7 in v.priority && !Backed(v, ds, node)
  {
  }

  /** The handle stays registered with the manager that is still in use at the node, its device gone. */
  lemma ARegistrationStays<K>(spare: K, x: DeviceInfo, y: DeviceInfo)
    requires x.node == y.node
    ensures PossibleRun(Fresh<K>(x, y), StreamAndUnplug(spare))
    ensures var s := After(Fresh<K>(x, y), StreamAndUnplug(spare));
            && s.registry == [Entry(y.node, spare, 8, 2, "")] && spare in s.managers
            && 7 in s.managers[spare].priority && !Backed(s.managers[spare], s.devices, y.node)
  {
    var t := StreamAndUnplug(spare);
    assert |t| == 4 && t[..3] + [t[3]] == t;
    hide *;
    var s := FirstThree(spare, x, y, [t[3]]);
    LastTurn(s, spare);
    UnplugFirst(s, spare, x, y, t[3].answers);
    var u := WithoutDevice(s, 1, t[3].answers);
    ItsDeviceIsGone(u.managers[spare], u.devices, y.node);
  }
}
