/** What every call through the registry keeps, whatever the HAL answers, while a handle drawn for an open is
    new to the registry. */
module SessionHealth {
  import opened Wrappers
  import opened DeviceManager
  import opened VirtualDevice
  import opened BackedHandles
  import opened Sessions

  ghost predicate DistinctHandles<K>(r: seq<Entry<K>>) {
    forall i, j :: 0 <= i < j < |r| ==> r[i].handle != r[j].handle
  }

  /** Handles share a manager exactly when they share a node. */
  ghost predicate OneManagerPerNode<K>(r: seq<Entry<K>>) {
    forall e, f :: e in r && f in r ==> (e.node == f.node <==> e.manager == f.manager)
  }

  /** The manager of an entry is there, and the entry's handle, unless the manager has forgotten it, is
      registered there and belongs to the entry's device, which is open and at the entry's node. At the
      nodes in `calm` that holds of every registered handle. */
  ghost predicate Served<K>(s: System<K>, e: Entry<K>, calm: iset<string>) {
    && e.manager in s.managers
    && (e.handle in s.managers[e.manager].handles ==> RegisteredFor(s, e))
    && (e.node in calm ==> Backed(s.managers[e.manager], s.devices, e.node))
  }

  ghost predicate RegisteredFor<K>(s: System<K>, e: Entry<K>)
    requires e.manager in s.managers
  {
    var v := s.managers[e.manager];
    && e.handle in v.handles && e.handle in v.priority && v.handles[e.handle].deviceId == e.deviceId
    && IsOpen(s.devices, e.deviceId) && NodeOf(s.devices, e.deviceId) == e.node
  }

  ghost predicate Healthy<K>(s: System<K>, calm: iset<string>) {
    && DistinctHandles(s.registry) && OneManagerPerNode(s.registry)
    && (forall k :: k in s.managers ==> Sound(s.managers[k]))
    && (forall e :: e in s.registry ==> Served(s, e, calm))
  }

  ghost predicate NewToRegistry<K>(r: seq<Entry<K>>, drawn: Option<int>) {
    forall e :: e in r ==> drawn != Some(e.handle)
  }

  /** The entries of manager `k` are those at `node`. */
  ghost predicate Serves<K>(r: seq<Entry<K>>, k: K, node: string) {
    forall e :: e in r ==> (e.manager == k <==> e.node == node)
  }

  // ---- the registry ----

  ghost predicate IsWith<K>(q: seq<Entry<K>>, r: seq<Entry<K>>, e: Entry<K>) {
    && (forall f :: f in q ==> f == e || f in r)
    && e in q && (forall f :: f in r ==> f in q)
  }

  lemma {:induction false} InsertKeeps<K>(r: seq<Entry<K>>, e: Entry<K>)
    requires DistinctHandles(r) && forall f :: f in r ==> f.handle != e.handle
    ensures DistinctHandles(Insert(r, e))
    ensures IsWith(Insert(r, e), r, e)
  {
    if r == [] {
    } else if Before(e.node, r[0].node) {
      assert Insert(r, e) == [e] + r;
    } else {
      assert forall f :: f in r[1..] ==> f in r;
      InsertKeeps(r[1..], e);
      var rest := Insert(r[1..], e);
      assert r == [r[0]] + r[1..];
      forall f | f in r[1..] ensures f.handle != r[0].handle {
        var k :| 0 <= k < |r| - 1 && r[k + 1] == f;
      }
      assert r[0] in r;
      forall j | 0 <= j < |rest| ensures rest[j].handle != r[0].handle {
        assert rest[j] in rest;
      }
    }
  }

  lemma RemoveAtKeeps<K>(r: seq<Entry<K>>, i: nat)
    requires DistinctHandles(r) && i < |r|
    ensures DistinctHandles(RemoveAt(r, i))
    ensures forall f :: f in RemoveAt(r, i) <==> f in r && f.handle != r[i].handle
  {
  }

  lemma FewerEntriesHealthy<K>(s: System<K>, r: seq<Entry<K>>, calm: iset<string>)
    requires Healthy(s, calm) && DistinctHandles(r) && forall e :: e in r ==> e in s.registry
    ensures Healthy(s.(registry := r), calm)
  {
  }

  lemma FoundServes<K>(s: System<K>, e: Entry<K>, calm: iset<string>)
    requires Healthy(s, calm) && e in s.registry
    ensures Serves(s.registry, e.manager, e.node)
  {
  }

  // ---- one call ----

  lemma OwnServed<K>(s: System<K>, e: Entry<K>, k: K, u: Vdm, es: DeviceMap, drawn: Option<int>, calm: iset<string>)
    requires Served(s, e, calm) && e.manager == k && drawn != Some(e.handle)
    requires Kept(s.managers[k], s.devices, u, es, e.node, drawn, e.node in calm)
    ensures Served(s.(managers := s.managers[k := u], devices := es), e, calm)
  {
  }

  lemma OthersServed<K>(s: System<K>, e: Entry<K>, k: K, node: string, u: Vdm, es: DeviceMap, calm: iset<string>)
    requires Served(s, e, calm) && e.manager != k && e.node != node
    requires SameElsewhere(s.devices, es, node)
    ensures Served(s.(managers := s.managers[k := u], devices := es), e, calm)
  {
  }

  /** A call on manager `k` came back, having kept its books. */
  lemma ReturnedHealthy<K>(s: System<K>, k: K, node: string, u: Vdm, es: DeviceMap, drawn: Option<int>,
                           calm: iset<string>)
    requires Healthy(s, calm) && k in s.managers && Serves(s.registry, k, node) && NewToRegistry(s.registry, drawn)
    requires Kept(s.managers[k], s.devices, u, es, node, drawn, node in calm)
    ensures Healthy(s.(managers := s.managers[k := u], devices := es), calm)
  {
    var t := s.(managers := s.managers[k := u], devices := es);
    KeptElsewhere(s.managers[k], s.devices, u, es, node, drawn, node in calm);
    hide Served, Kept;
    forall e | e in s.registry ensures Served(t, e, calm) {
      assert Served(s, e, calm);
      if e.manager == k {
        OwnServed(s, e, k, u, es, drawn, calm);
      } else {
        OthersServed(s, e, k, node, u, es, calm);
      }
    }
  }

  lemma KeptElsewhere(v: Vdm, ds: DeviceMap, u: Vdm, es: DeviceMap, node: string, drawn: Option<int>, backed: bool)
    requires Kept(v, ds, u, es, node, drawn, backed)
    ensures SameElsewhere(ds, es, node) && Sound(u)
  {
  }

  lemma RouteHealthy<K>(s: System<K>, op: Op, a: Answers, calm: iset<string>)
    requires Healthy(s, calm) && !op.DoOpen? && !op.DoClose?
    ensures Healthy(Route(s, op, a).system, calm)
  {
    var i := Find(s.registry, Target(op));
    if Target(op) != INVALID_ID && i < |s.registry| {
      var e := s.registry[i];
      FoundServes(s, e, calm);
      CallKept(s.managers[e.manager], s.devices, op, a, e.node, e.node in calm);
      var o := Step(s.managers[e.manager], s.devices, op, a);
      ReturnedHealthy(s, e.manager, e.node, o.vdm, o.devices, None, calm);
    }
  }

  lemma ClosedHealthy<K>(s: System<K>, e: Entry<K>, a: Answers, calm: iset<string>)
    requires Healthy(s, calm) && e in s.registry
    ensures Healthy(Returned(s, e.manager, Close(ManagerOf(s, e.manager), s.devices, e.handle, a)), calm)
  {
    FoundServes(s, e, calm);
    var o := Close(s.managers[e.manager], s.devices, e.handle, a);
    CloseKept(s.managers[e.manager], s.devices, e.handle, a, e.node, e.node in calm);
    ReturnedHealthy(s, e.manager, e.node, o.vdm, o.devices, None, calm);
  }

  lemma CloseHealthy<K>(s: System<K>, h: int, a: Answers, calm: iset<string>)
    requires Healthy(s, calm)
    ensures Healthy(CloseSession(s, h, a).system, calm)
  {
    var i := Find(s.registry, h);
    if h != INVALID_ID && i < |s.registry| {
      var e := s.registry[i];
      ClosedHealthy(s, e, a, calm);
      var s1 := Returned(s, e.manager, Close(ManagerOf(s, e.manager), s.devices, h, a));
      RemoveAtKeeps(s.registry, i);
      FewerEntriesHealthy(s1, RemoveAt(s.registry, i), calm);
    }
  }

  /** A manager nobody refers to yet. */
  lemma SpareHealthy<K>(s: System<K>, spare: K, calm: iset<string>)
    requires Healthy(s, calm) && spare !in s.managers
    ensures Healthy(s.(managers := s.managers[spare := INITIAL]), calm)
    ensures forall e :: e in s.registry ==> e.manager != spare
  {
  }

  lemma JoinedGroups<K>(r: seq<Entry<K>>, e: Entry<K>, q: seq<Entry<K>>)
    requires OneManagerPerNode(r) && Serves(r, e.manager, e.node)
    requires IsWith(q, r, e)
    ensures OneManagerPerNode(q)
  {
  }

  /** The new entry joins. */
  lemma JoinedHealthy<K>(s: System<K>, e: Entry<K>, calm: iset<string>)
    requires Healthy(s, calm) && Served(s, e, calm) && Serves(s.registry, e.manager, e.node)
    requires forall f :: f in s.registry ==> f.handle != e.handle
    ensures Healthy(s.(registry := Insert(s.registry, e)), calm)
  {
    InsertKeeps(s.registry, e);
    JoinedGroups(s.registry, e, Insert(s.registry, e));
    var t := s.(registry := Insert(s.registry, e));
    forall f | f in t.registry ensures Served(t, f, calm) {
      assert Served(s, f, calm);
    }
  }

  lemma OpenAtHealthy<K>(s: System<K>, k: K, deviceId: int, apppriority: string, a: Answers, calm: iset<string>)
    requires Healthy(s, calm) && k in s.managers && Serves(s.registry, k, NodeOf(s.devices, deviceId))
    requires NewToRegistry(s.registry, Drawn(s.managers[k], a))
    requires NodeOf(s.devices, deviceId) in calm ==> Backed(s.managers[k], s.devices, NodeOf(s.devices, deviceId))
    ensures var o := Open(s.managers[k], s.devices, deviceId, apppriority, a);
            var t := s.(managers := s.managers[k := o.vdm], devices := o.devices);
            && Healthy(t, calm)
            && (o.code == OK ==>
                  var e := Entry(NodeOf(s.devices, deviceId), k, o.handle, deviceId, "");
                  Healthy(t.(registry := Insert(s.registry, e)), calm))
  {
    var node := NodeOf(s.devices, deviceId);
    var o := Open(s.managers[k], s.devices, deviceId, apppriority, a);
    OpenKept(s.managers[k], s.devices, deviceId, apppriority, a, node in calm);
    ReturnedHealthy(s, k, node, o.vdm, o.devices, Drawn(s.managers[k], a), calm);
    if o.code == OK {
      OpenEffect(s.managers[k], s.devices, deviceId, apppriority, a);
      OpenDevices(s.managers[k], s.devices, deviceId, apppriority, a);
      var t := s.(managers := s.managers[k := o.vdm], devices := o.devices);
      assert o.handle in o.vdm.priority.Keys;
      JoinedHealthy(t, Entry(node, k, o.handle, deviceId, ""), calm);
    }
  }

  lemma WithoutSpareHealthy<K>(s: System<K>, spare: K, u: Vdm, es: DeviceMap, calm: iset<string>)
    requires Healthy(s, calm) && spare !in s.managers
    requires Healthy(s.(managers := s.managers[spare := u], devices := es), calm)
    ensures Healthy(s.(devices := es), calm)
  {
  }

  /** No entry is at the device's node, so that an open starts a new manager. */
  predicate Unserved<K>(s: System<K>, deviceId: int) {
    FindNode(s.registry, NodeOf(s.devices, deviceId)) == |s.registry|
  }

  /** The manager an open would be asked of. */
  function Serving<K(==)>(s: System<K>, deviceId: int): Vdm {
    var i := FindNode(s.registry, NodeOf(s.devices, deviceId));
    if i < |s.registry| then ManagerOf(s, s.registry[i].manager) else INITIAL
  }

  lemma OpenHealthy<K>(s: System<K>, deviceId: int, apppriority: string, spare: K, a: Answers, calm: iset<string>)
    requires Healthy(s, calm) && NewToRegistry(s.registry, Drawn(Serving(s, deviceId), a))
    requires Unserved(s, deviceId) ==> spare !in s.managers
    ensures Healthy(OpenSession(s, deviceId, apppriority, spare, a).system, calm)
  {
    hide Open, Drawn, Insert;
    var node := NodeOf(s.devices, deviceId);
    var i := FindNode(s.registry, node);
    if i < |s.registry| {
      var e := s.registry[i];
      FoundServes(s, e, calm);
      OpenAtHealthy(s, e.manager, deviceId, apppriority, a, calm);
    } else {
      SpareHealthy(s, spare, calm);
      var t := s.(managers := s.managers[spare := INITIAL]);
      OpenAtHealthy(t, spare, deviceId, apppriority, a, calm);
      var o := Open(INITIAL, s.devices, deviceId, apppriority, a);
      assert t.managers[spare := o.vdm] == s.managers[spare := o.vdm];
      if o.code != OK {
        WithoutSpareHealthy(s, spare, o.vdm, o.devices, calm);
      }
    }
  }

  /** An entry of the relabelled registry, and the one it was. */
  lemma Relabelled<K>(r: seq<Entry<K>>, i: nat, name: string, e: Entry<K>) returns (f: Entry<K>)
    requires i < |r| && e in r[i := r[i].(client := name)]
    ensures f in r && e == f.(client := e.client)
  {
    var q := r[i := r[i].(client := name)];
    var j :| 0 <= j < |q| && q[j] == e;
    f := r[j];
  }

  lemma RelabelledGroups<K>(r: seq<Entry<K>>, i: nat, name: string)
    requires i < |r| && OneManagerPerNode(r)
    ensures OneManagerPerNode(r[i := r[i].(client := name)])
  {
  }

  lemma SetClientHealthy<K>(s: System<K>, h: int, name: string, calm: iset<string>)
    requires Healthy(s, calm)
    ensures Healthy(SetClient(s, h, name), calm)
  {
    var t := SetClient(s, h, name);
    var i := Find(s.registry, h);
    if h != INVALID_ID && i < |s.registry| {
      RelabelledGroups(s.registry, i, name);
      forall e | e in t.registry ensures Served(t, e, calm) {
        var f := Relabelled(s.registry, i, name, e);
        assert Served(s, f, calm);
      }
    }
  }

  lemma PlugHealthy<K>(s: System<K>, info: DeviceInfo, calm: iset<string>)
    requires Healthy(s, calm)
    ensures Healthy(s.(devices := Added(s.devices, info)), calm)
  {
  }

  lemma CaptureStoppedHealthy<K>(s: System<K>, e: Entry<K>, a: Answers, calm: iset<string>)
    requires Healthy(s, calm) && e in s.registry
    ensures Healthy(Returned(s, e.manager, StopCapture(ManagerOf(s, e.manager), s.devices, e.handle, true, a)), calm)
  {
    hide StopCapture;
    FoundServes(s, e, calm);
    CallKept(s.managers[e.manager], s.devices, DoStopCapture(e.handle, true), a, e.node, e.node in calm);
    var o := StopCapture(s.managers[e.manager], s.devices, e.handle, true, a);
    ReturnedHealthy(s, e.manager, e.node, o.vdm, o.devices, None, calm);
  }

  lemma StopAllHealthy<K>(s: System<K>, e: Entry<K>, a: Answers, calm: iset<string>)
    requires Healthy(s, calm) && e in s.registry
    ensures Healthy(StopAll(s, e, a), calm)
  {
    hide Healthy, StopCapture, Route;
    CaptureStoppedHealthy(s, e, a, calm);
    var s1 := Returned(s, e.manager, StopCapture(ManagerOf(s, e.manager), s.devices, e.handle, true, a));
    RouteHealthy(s1, DoStopCamera(e.handle), a, calm);
    RouteHealthy(s1, DoStopPreview(e.handle), a, calm);
  }

  lemma StopsKeepRegistry<K>(s: System<K>, e: Entry<K>, a: Answers)
    ensures StopAll(s, e, a).registry == s.registry && StopAndClose(s, e, a).registry == s.registry
  {
  }

  lemma StopAndCloseHealthy<K>(s: System<K>, e: Entry<K>, a: Answers, calm: iset<string>)
    requires Healthy(s, calm) && e in s.registry
    ensures Healthy(StopAndClose(s, e, a), calm) && StopAndClose(s, e, a).registry == s.registry
  {
    hide Healthy, StopAll, Close;
    StopAllHealthy(s, e, a, calm);
    StopsKeepRegistry(s, e, a);
    ClosedHealthy(StopAll(s, e, a), e, a, calm);
  }

  lemma RoundHealthy<K>(s: System<K>, i: nat, a: Answers, calm: iset<string>)
    requires Healthy(s, calm) && i < |s.registry|
    ensures Healthy(StopAndClose(s, s.registry[i], a).(registry := RemoveAt(s.registry, i)), calm)
  {
    hide StopAndClose;
    StopAndCloseHealthy(s, s.registry[i], a, calm);
    RemoveAtKeeps(s.registry, i);
    FewerEntriesHealthy(StopAndClose(s, s.registry[i], a), RemoveAt(s.registry, i), calm);
  }

  lemma {:induction false} TeardownHealthy<K>(s: System<K>, i: nat, w: Whose, answers: nat -> Answers,
                                              calm: iset<string>)
    requires Healthy(s, calm)
    ensures Healthy(Teardown(s, i, w, answers), calm)
    decreases |s.registry| - i
  {
    hide StopAndClose, Healthy;
    if i >= |s.registry| {
    } else if Selected(w, s.registry[i]) {
      var a := answers(|s.registry| - 1 - i);
      RoundHealthy(s, i, a, calm);
      TeardownHealthy(StopAndClose(s, s.registry[i], a).(registry := RemoveAt(s.registry, i)), i, w, answers, calm);
    } else {
      TeardownHealthy(s, i + 1, w, answers, calm);
    }
  }
}
