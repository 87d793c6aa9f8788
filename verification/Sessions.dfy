/** The registry of open handles over all cameras: which manager each call is routed to, and how handles
    are torn down. Managers are named by keys of any type, their contents kept beside the registry. */
module Sessions {
  import opened DeviceManager
  import opened VirtualDevice

  datatype Entry<K> = Entry(node: string, manager: K, handle: int, deviceId: int, client: string)

  datatype System<K> = System(registry: seq<Entry<K>>, managers: map<K, Vdm>, devices: DeviceMap)

  function ManagerOf<K(==)>(s: System<K>, k: K): Vdm {
    if k in s.managers then s.managers[k] else INITIAL
  }

  /** A call on manager `k` came back. */
  function Returned<K(==)>(s: System<K>, k: K, o: Out): System<K> {
    s.(managers := s.managers[k := o.vdm], devices := o.devices)
  }

  // ---- the registry, a multimap ordered by node ----

  /** std::string's operator<. */
  predicate Before(a: string, b: string) {
    if b == "" then false
    else if a == "" then true
    else a[0] < b[0] || (a[0] == b[0] && Before(a[1..], b[1..]))
  }

  /** multimap::insert: in front of the first entry with a greater node. */
  function Insert<K>(r: seq<Entry<K>>, e: Entry<K>): seq<Entry<K>> {
    if r == [] then [e]
    else if Before(e.node, r[0].node) then [e] + r
    else [r[0]] + Insert(r[1..], e)
  }

  function RemoveAt<K>(r: seq<Entry<K>>, i: nat): seq<Entry<K>>
    requires i < |r|
  {
    r[..i] + r[i + 1..]
  }

  /** The position of the first entry with this handle, the length when there is none. */
  function Find<K>(r: seq<Entry<K>>, h: int): (i: nat)
    ensures i <= |r|
    ensures i < |r| ==> r[i].handle == h
    ensures forall j :: 0 <= j < i ==> r[j].handle != h
  {
    if r == [] then 0
    else if r[0].handle == h then 0
    else
      var i := Find(r[1..], h);
      assert forall j :: 0 < j < i + 1 ==> r[j] == r[1..][j - 1];
      i + 1
  }

  function FindNode<K>(r: seq<Entry<K>>, node: string): (i: nat)
    ensures i <= |r|
    ensures i < |r| ==> r[i].node == node
    ensures forall j :: 0 <= j < i ==> r[j].node != node
  {
    if r == [] then 0
    else if r[0].node == node then 0
    else
      var i := FindNode(r[1..], node);
      assert forall j :: 0 < j < i + 1 ==> r[j] == r[1..][j - 1];
      i + 1
  }

  // ---- open, close and routed calls ----

  datatype Result<K> = Result(code: Code, system: System<K>)

  /** Open a camera: join the manager that already serves its node, or start the one at `spare`. */
  function OpenSession<K(==)>(s: System<K>, deviceId: int, apppriority: string, spare: K, a: Answers): Result<K> {
    var node := NodeOf(s.devices, deviceId);
    var i := FindNode(s.registry, node);
    var k := if i < |s.registry| then s.registry[i].manager else spare;
    var v := if i < |s.registry| then ManagerOf(s, k) else INITIAL;
    var o := Open(v, s.devices, deviceId, apppriority, a);
    if o.code == OK then
      Result(OK, System(Insert(s.registry, Entry(node, k, o.handle, deviceId, "")),
                        s.managers[k := o.vdm], o.devices))
    else if i < |s.registry| then Result(o.code, s.(managers := s.managers[k := o.vdm], devices := o.devices))
    else Result(o.code, s.(devices := o.devices))
  }

  function CloseSession<K(==)>(s: System<K>, h: int, a: Answers): Result<K> {
    var i := Find(s.registry, h);
    if h == INVALID_ID then Result(WrongParam, s)
    else if i == |s.registry| then Result(AlreadyClosed, s)
    else
      var k := s.registry[i].manager;
      var o := Close(ManagerOf(s, k), s.devices, h, a);
      var s1 := Returned(s, k, o);
      if o.code == OK || o.code == AlreadyClosed then
        Result(o.code, s1.(registry := RemoveAt(s.registry, i)))
      else Result(o.code, s1)
  }

  /** The handle of a call that is routed by it, and is neither an open nor a close. */
  function Target(op: Op): (h: int)
    requires !op.DoOpen? && !op.DoClose?
  {
    op.h
  }

  function Route<K(==)>(s: System<K>, op: Op, a: Answers): Result<K>
    requires !op.DoOpen? && !op.DoClose?
  {
    var i := Find(s.registry, Target(op));
    if Target(op) == INVALID_ID then Result(WrongParam, s)
    else if i == |s.registry| then Result(Unknown, s)
    else
      var k := s.registry[i].manager;
      var o := Step(ManagerOf(s, k), s.devices, op, a);
      Result(o.code, Returned(s, k, o))
  }

  function SetClient<K>(s: System<K>, h: int, name: string): System<K> {
    var i := Find(s.registry, h);
    if h == INVALID_ID || i == |s.registry| then s
    else s.(registry := s.registry[i := s.registry[i].(client := name)])
  }

  // ---- teardown ----

  function StateOf<K(==)>(s: System<K>, h: int): CamState {
    var i := Find(s.registry, h);
    if i == |s.registry| then Closed
    else
      var v := ManagerOf(s, s.registry[i].manager);
      if h in v.handles then v.handles[h].state else Closed
  }

  /** Stop whatever the entry's handle is doing; the calls' return codes are ignored. */
  function StopAll<K(==)>(s: System<K>, e: Entry<K>, a: Answers): System<K> {
    var s1 := Returned(s, e.manager, StopCapture(ManagerOf(s, e.manager), s.devices, e.handle, true, a));
    var st := StateOf(s1, e.handle);
    if st.Streaming? then Route(s1, DoStopCamera(e.handle), a).system
    else if st.Preview? then Route(s1, DoStopPreview(e.handle), a).system
    else s1
  }

  /** stopAndCloseDevice. */
  function StopAndClose<K(==)>(s: System<K>, e: Entry<K>, a: Answers): System<K> {
    var s1 := StopAll(s, e, a);
    Returned(s1, e.manager, Close(ManagerOf(s1, e.manager), s1.devices, e.handle, a))
  }

  /** Whose handles are torn down: a client that left, a device that was unplugged, or everyone's. */
  datatype Whose = OfClient(name: string) | OfDevice(id: int) | Everyone

  predicate Selected<K>(w: Whose, e: Entry<K>) {
    match w
    case OfClient(name) => e.client == name
    case OfDevice(id) => e.deviceId == id
    case Everyone => true
  }

  /** The loop of closeClientDevice, release and handleCrash from position `i` on. `answers(n)` are those
      given while the entry with `n` entries behind it is torn down. */
  function Teardown<K(==)>(s: System<K>, i: nat, w: Whose, answers: nat -> Answers): System<K>
    decreases |s.registry| - i
  {
    if i >= |s.registry| then s
    else if Selected(w, s.registry[i]) then
      var s1 := StopAndClose(s, s.registry[i], answers(|s.registry| - 1 - i));
      Teardown(s1.(registry := RemoveAt(s.registry, i)), i, w, answers)
    else Teardown(s, i + 1, w, answers)
  }

  // ---- steps ----

  /** The first half of removeDevice: an open device is released. */
  function AfterRelease<K(==)>(s: System<K>, id: int, answers: nat -> Answers): System<K> {
    if IsOpen(s.devices, id) then Teardown(s, 0, OfDevice(id), answers) else s
  }

  /** removeDevice: release the device if it is open, then forget it. */
  function WithoutDevice<K(==)>(s: System<K>, id: int, answers: nat -> Answers): System<K> {
    if id !in s.devices then s
    else
      var s1 := AfterRelease(s, id, answers);
      s1.(devices := s1.devices - {id})
  }

  /** The first loop of updateDeviceList; `answers(k)` are given while the k-th device is removed. */
  function WithoutDevices<K(==)>(s: System<K>, ids: seq<int>, answers: nat -> nat -> Answers): System<K> {
    if ids == [] then s
    else
      var n := |ids| - 1;
      WithoutDevice(WithoutDevices(s, ids[..n], answers), ids[n], answers(n))
  }

  /** What can happen to the service: client requests, and devices coming and going. */
  datatype Event<K> =
    | Opens(deviceId: int, apppriority: string, spare: K)
    | Closes(h: int)
    | Calls(op: Op)
    | NamesClient(h: int, name: string)
    | TearsDown(whose: Whose)
    | PlugsIn(info: DeviceInfo)
    | Unplugs(id: int)

  predicate Routable<K>(e: Event<K>) {
    e.Calls? ==> !e.op.DoOpen? && !e.op.DoClose?
  }

  function Next<K(==)>(s: System<K>, e: Event<K>, answers: nat -> Answers): System<K>
    requires Routable(e)
  {
    match e
    case Opens(deviceId, apppriority, spare) => OpenSession(s, deviceId, apppriority, spare, answers(0)).system
    case Closes(h) => CloseSession(s, h, answers(0)).system
    case Calls(op) => Route(s, op, answers(0)).system
    case NamesClient(h, name) => SetClient(s, h, name)
    case TearsDown(w) => Teardown(s, 0, w, answers)
    case PlugsIn(info) => s.(devices := Added(s.devices, info))
    case Unplugs(id) => WithoutDevice(s, id, answers)
  }
}
