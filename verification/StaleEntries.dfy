/** When a registry entry outlives its handle: the last close of a camera closes the device, and then the HAL
    process refuses to be destroyed. */
module StaleEntries {
  import opened Wrappers
  import opened DeviceManager
  import opened VirtualDevice
  import opened BackedHandles
  import opened Sessions
  import opened SessionHealth
  import opened SessionTeardown
  import opened SessionRuns

  /** The entry's manager knows the handle. */
  ghost predicate Known<K>(s: System<K>, e: Entry<K>) {
    e.handle in ManagerOf(s, e.manager).handles
  }

  ghost predicate AllKnown<K>(s: System<K>) {
    forall e :: e in s.registry ==> Known(s, e)
  }

  /** Handle `h` is open and the last one registered, the device lets itself be closed, the HAL process does
      not let itself be destroyed, and does not say that it is closed already. */
  predicate Outlives(v: Vdm, h: int, a: Answers) {
    && h in v.handles && v.handles[h].state == Opened && |v.priority| == 1
    && a.close == OK && a.destroyHal != OK && a.destroyHal != AlreadyClosed
  }

  /** A close leaves an entry behind whose handle is forgotten exactly in that case. */
  lemma EntryOutlivesHandle<K>(s: System<K>, e: Entry<K>, a: Answers, calm: iset<string>)
    requires Healthy(s, calm) && e in s.registry && Known(s, e)
    ensures var t := CloseSession(s, e.handle, a).system;
            e in t.registry && !Known(t, e) <==> Outlives(s.managers[e.manager], e.handle, a)
  {
    assert Served(s, e, calm) && Sound(s.managers[e.manager]);
    RemoveAtKeeps(s.registry, Find(s.registry, e.handle));
  }

  lemma CloseForgetsOne<K>(s: System<K>, h: int, a: Answers, k: K)
    requires k in s.managers
    ensures var t := CloseSession(s, h, a).system;
            k in t.managers && s.managers[k].handles.Keys - {h} <= t.managers[k].handles.Keys
  {
    hide HasPrimary;
  }

  // ---- every other event keeps entries and handles together ----

  /** Managers know at least the handles they knew before, except `gone`. */
  ghost predicate KnowsStill<K>(s: System<K>, t: System<K>, gone: set<int>) {
    forall k :: k in s.managers ==> k in t.managers && s.managers[k].handles.Keys - gone <= t.managers[k].handles.Keys
  }

  lemma CallKeepsKeys<K>(s: System<K>, e: Entry<K>, op: Op, a: Answers, calm: iset<string>)
    requires Healthy(s, calm) && e in s.registry
    requires !op.DoOpen? && !op.DoClose? && Target(op) == e.handle
    ensures e.manager in s.managers
    ensures SameKeys(s.managers[e.manager], Step(s.managers[e.manager], s.devices, op, a).vdm)
  {
    assert Served(s, e, calm) && Sound(s.managers[e.manager]);
    assert StartsRegistered(s.managers[e.manager], op);
    hide *;
    CallSound(s.managers[e.manager], s.devices, op, a);
  }

  lemma RouteKnows<K>(s: System<K>, op: Op, a: Answers, calm: iset<string>)
    requires Healthy(s, calm) && !op.DoOpen? && !op.DoClose?
    ensures KnowsStill(s, Route(s, op, a).system, {}) && Route(s, op, a).system.registry == s.registry
  {
    hide Healthy, Step;
    var i := Find(s.registry, Target(op));
    if Target(op) != INVALID_ID && i < |s.registry| {
      CallKeepsKeys(s, s.registry[i], op, a, calm);
    }
  }

  lemma CloseKnows<K>(s: System<K>, h: int, a: Answers)
    ensures KnowsStill(s, CloseSession(s, h, a).system, {h})
  {
    hide CloseSession;
    forall k | k in s.managers
      ensures k in CloseSession(s, h, a).system.managers
      ensures s.managers[k].handles.Keys - {h} <= CloseSession(s, h, a).system.managers[k].handles.Keys
    {
      CloseForgetsOne(s, h, a, k);
    }
  }

  lemma StopAndCloseKnows<K>(s: System<K>, e: Entry<K>, a: Answers, calm: iset<string>)
    requires Healthy(s, calm) && e in s.registry
    ensures KnowsStill(s, StopAndClose(s, e, a), {e.handle})
  {
    hide StopAndClose, Stopped, Sound;
    assert Served(s, e, calm) && Sound(s.managers[e.manager]);
    StopAndCloseIsLocal(s, e, a, calm);
    StoppedKeys(s.managers[e.manager], s.devices, e.handle, a);
    CloseKeepsOthers(Stopped(s.managers[e.manager], s.devices, e.handle, a), s.devices, e.handle, a);
  }

  lemma CloseKeepsOthers(v: Vdm, ds: DeviceMap, h: int, a: Answers)
    ensures v.handles.Keys - {h} <= Close(v, ds, h, a).vdm.handles.Keys
  {
  }

  /** One round of a teardown loop. */
  lemma RoundKnown<K>(s: System<K>, i: nat, a: Answers, calm: iset<string>)
    requires Healthy(s, calm) && AllKnown(s) && i < |s.registry|
    ensures AllKnown(StopAndClose(s, s.registry[i], a).(registry := RemoveAt(s.registry, i)))
  {
    hide StopAndClose;
    var e := s.registry[i];
    var t := StopAndClose(s, e, a).(registry := RemoveAt(s.registry, i));
    StopAndCloseKnows(s, e, a, calm);
    RemoveAtKeeps(s.registry, i);
    forall f | f in t.registry ensures Known(t, f) {
      assert Known(s, f) && Served(s, f, calm);
    }
  }

  lemma {:induction false} TeardownKnown<K>(s: System<K>, i: nat, w: Whose, answers: nat -> Answers, calm: iset<string>)
    requires Healthy(s, calm) && AllKnown(s)
    ensures AllKnown(Teardown(s, i, w, answers))
    decreases |s.registry| - i
  {
    if i < |s.registry| {
      hide StopAndClose, Healthy, Teardown, AllKnown;
      TeardownRound(s, i, w, answers);
      if Selected(w, s.registry[i]) {
        var a := answers(|s.registry| - 1 - i);
        RoundHealthy(s, i, a, calm);
        RoundKnown(s, i, a, calm);
        TeardownKnown(StopAndClose(s, s.registry[i], a).(registry := RemoveAt(s.registry, i)), i, w, answers, calm);
      } else {
        TeardownKnown(s, i + 1, w, answers, calm);
      }
    }
  }

  lemma OpenKnown<K>(s: System<K>, deviceId: int, apppriority: string, spare: K, a: Answers, calm: iset<string>)
    requires Healthy(s, calm) && AllKnown(s)
    requires Unserved(s, deviceId) ==> spare !in s.managers
    requires NewToRegistry(s.registry, Drawn(Serving(s, deviceId), a))
    ensures AllKnown(OpenSession(s, deviceId, apppriority, spare, a).system)
  {
    var i := FindNode(s.registry, NodeOf(s.devices, deviceId));
    var v := Serving(s, deviceId);
    var t := OpenSession(s, deviceId, apppriority, spare, a).system;
    var o := Open(v, s.devices, deviceId, apppriority, a);
    if i < |s.registry| {
      assert Served(s, s.registry[i], calm) && Sound(s.managers[s.registry[i].manager]);
    }
    OpenEffect(v, s.devices, deviceId, apppriority, a);
    hide Open;
    if o.code == OK {
      var k := if i < |s.registry| then s.registry[i].manager else spare;
      InsertKeeps(s.registry, Entry(NodeOf(s.devices, deviceId), k, o.handle, deviceId, ""));
    }
    forall f | f in t.registry ensures Known(t, f) {
      if f in s.registry { assert Known(s, f) && Served(s, f, calm); }
    }
  }

  lemma CloseKnown<K>(s: System<K>, h: int, a: Answers, calm: iset<string>)
    requires Healthy(s, calm) && AllKnown(s)
    requires forall e :: e in s.registry && e.handle == h ==> !Outlives(ManagerOf(s, e.manager), h, a)
    ensures AllKnown(CloseSession(s, h, a).system)
  {
    var t := CloseSession(s, h, a).system;
    CloseKnows(s, h, a);
    var i := Find(s.registry, h);
    if h != INVALID_ID && i < |s.registry| {
      RemoveAtKeeps(s.registry, i);
      EntryOutlivesHandle(s, s.registry[i], a, calm);
    }
    hide CloseSession;
    forall f | f in t.registry ensures Known(t, f) {
      assert Known(s, f) && Served(s, f, calm);
    }
  }

  lemma SetClientKnown<K>(s: System<K>, h: int, name: string)
    requires AllKnown(s)
    ensures AllKnown(SetClient(s, h, name))
  {
    var t := SetClient(s, h, name);
    var i := Find(s.registry, h);
    if h != INVALID_ID && i < |s.registry| {
      forall e | e in t.registry ensures Known(t, e) {
        var f := Relabelled(s.registry, i, name, e);
        assert Known(s, f);
      }
    }
  }

  lemma RouteKnown<K>(s: System<K>, op: Op, a: Answers, calm: iset<string>)
    requires Healthy(s, calm) && AllKnown(s) && !op.DoOpen? && !op.DoClose?
    ensures AllKnown(Route(s, op, a).system)
  {
    var t := Route(s, op, a).system;
    RouteKnows(s, op, a, calm);
    hide Route;
    forall e | e in t.registry ensures Known(t, e) {
      assert Known(s, e) && Served(s, e, calm);
    }
  }

  // ---- events and runs ----

  /** The event is a close that leaves an entry behind. */
  ghost predicate LeavesEntry<K>(s: System<K>, t: Turn<K>) {
    && t.event.Closes?
    && exists e :: e in s.registry && e.handle == t.event.h && Outlives(ManagerOf(s, e.manager), e.handle, t.answers(0))
  }

  lemma CloseLeaves<K>(s: System<K>, t: Turn<K>, calm: iset<string>)
    requires Healthy(s, calm) && AllKnown(s) && t.event.Closes?
    ensures AllKnown(CloseSession(s, t.event.h, t.answers(0)).system) <==> !LeavesEntry(s, t)
  {
    if LeavesEntry(s, t) {
      var e :| e in s.registry && e.handle == t.event.h && Outlives(ManagerOf(s, e.manager), e.handle, t.answers(0));
      hide CloseSession, Outlives;
      assert Served(s, e, calm) && Known(s, e);
      EntryOutlivesHandle(s, e, t.answers(0), calm);
    } else {
      CloseKnown(s, t.event.h, t.answers(0), calm);
    }
  }

  /** An event that finds all entries known leaves them known exactly if it is no such close. */
  lemma NextKnown<K>(s: System<K>, t: Turn<K>, calm: iset<string>)
    requires Healthy(s, calm) && AllKnown(s) && Possible(s, t)
    ensures AllKnown(Next(s, t.event, t.answers)) <==> !LeavesEntry(s, t)
  {
    hide Healthy, AllKnown, Outlives;
    match t.event
    case Opens(deviceId, apppriority, spare) => OpenKnown(s, deviceId, apppriority, spare, t.answers(0), calm);
    case Closes(h) => CloseLeaves(s, t, calm);
    case Calls(op) => RouteKnown(s, op, t.answers(0), calm);
    case NamesClient(h, name) => SetClientKnown(s, h, name);
    case TearsDown(w) => TeardownKnown(s, 0, w, t.answers, calm);
    case PlugsIn(info) => SameEntriesKnown(s, Next(s, t.event, t.answers));
    case Unplugs(id) =>
      TeardownKnown(s, 0, OfDevice(id), t.answers, calm);
      UnplugKnown(s, id, t.answers);
  }

  /** Entries and managers do not depend on the device map. */
  lemma SameEntriesKnown<K>(s: System<K>, t: System<K>)
    requires AllKnown(s) && t.registry == s.registry && t.managers == s.managers
    ensures AllKnown(t)
  {
    forall e | e in t.registry ensures Known(t, e) {
      assert Known(s, e);
    }
  }

  lemma UnplugKnown<K>(s: System<K>, id: int, answers: nat -> Answers)
    requires AllKnown(s) && AllKnown(Teardown(s, 0, OfDevice(id), answers))
    ensures AllKnown(WithoutDevice(s, id, answers))
  {
    hide AllKnown, Teardown;
    var t := Teardown(s, 0, OfDevice(id), answers);
    SameEntriesKnown(t, t.(devices := t.devices - {id}));
    SameEntriesKnown(s, s.(devices := s.devices - {id}));
  }

  ghost predicate NoneLeaves<K>(s: System<K>, turns: seq<Turn<K>>)
    requires PossibleRun(s, turns)
    decreases |turns|
  {
    |turns| == 0 ||
    (!LeavesEntry(s, turns[0]) && NoneLeaves(Next(s, turns[0].event, turns[0].answers), turns[1..]))
  }

  lemma {:induction false} RunKnown<K>(s: System<K>, turns: seq<Turn<K>>)
    requires Healthy(s, iset{}) && AllKnown(s) && PossibleRun(s, turns) && NoneLeaves(s, turns)
    ensures AllKnown(After(s, turns)) && Healthy(After(s, turns), iset{})
    decreases |turns|
  {
    if |turns| != 0 {
      hide Healthy, AllKnown, Next, LeavesEntry;
      NextHealthy(s, turns[0], iset{});
      NextKnown(s, turns[0], iset{});
      RunKnown(Next(s, turns[0].event, turns[0].answers), turns[1..]);
    }
  }

  /** As long as no close leaves an entry behind, every entry of the registry stands for a registered handle
      on an open device, through any calls, HAL answers, plugging and unplugging. */
  lemma EntriesStandForHandles<K>(devices: DeviceMap, turns: seq<Turn<K>>)
    requires PossibleRun(System([], map[], devices), turns) && NoneLeaves(System([], map[], devices), turns)
    ensures var s := After(System([], map[], devices), turns);
            forall e :: e in s.registry ==> e.manager in s.managers && RegisteredFor(s, e)
  {
    RunKnown(System([], map[], devices), turns);
    var s := After(System([], map[], devices), turns);
    forall e | e in s.registry ensures e.manager in s.managers && RegisteredFor(s, e) {
      assert Served(s, e, iset{}) && Known(s, e);
    }
  }

  // ---- and one does ----

  const WILLING: Answers := Answers(OK, OK, OK, OK, OK, OK, OK, OK, OK, OK, OK, OK, true, true, [7])
  const REFUSING: Answers := WILLING.(destroyHal := Unknown)

  /** Open the only camera, and close it again while the HAL process refuses to go. */
  function OpenAndClose<K>(spare: K): seq<Turn<K>> {
    [Turn(Opens(1, "", spare), _ => WILLING), Turn(Closes(7), _ => REFUSING)]
  }

  const OPENED: Vdm :=
    INITIAL.(handles := map[7 := DevState(1, Opened)], priority := map[7 := PRIMARY],
             hal := Hal(false, {}, false, [], [CreateHal, HalOpen]))

  function Plugged(info: DeviceInfo, open: bool): DeviceMap {
    map[1 := DeviceStatus(info, open)]
  }

  lemma TheOpen(info: DeviceInfo)
    ensures Open(INITIAL, Plugged(info, false), 1, "", WILLING) == OpenOut(OK, 7, OPENED, Plugged(info, true))
  {
    assert FirstFree([7], {}) == Some(7);
    var calls := INITIAL.hal.calls + [CreateHal] + [HalOpen];
    assert calls == [CreateHal, HalOpen];
    assert map[][7 := DevState(1, Opened)] == map[7 := DevState(1, Opened)];
  }

  lemma TheClose(info: DeviceInfo)
    ensures var o := Close(OPENED, Plugged(info, true), 7, REFUSING);
            o.code == Unknown && o.vdm.handles == map[] && o.devices == Plugged(info, false)
  {
  }

  /** After the open. */
  function InUse<K(==)>(spare: K, info: DeviceInfo): System<K> {
    System([Entry(info.node, spare, 7, 1, "")], map[spare := OPENED], Plugged(info, true))
  }

  lemma FirstTurn<K>(spare: K, info: DeviceInfo)
    ensures OpenSession(System([], map[], Plugged(info, false)), 1, "", spare, WILLING).system == InUse(spare, info)
  {
    hide Open;
    TheOpen(info);
  }

  lemma SecondTurn<K>(spare: K, info: DeviceInfo)
    ensures var t := CloseSession(InUse(spare, info), 7, REFUSING).system;
            t.registry == InUse(spare, info).registry && t.devices == Plugged(info, false)
            && spare in t.managers && t.managers[spare].handles == map[]
  {
    hide Close;
    TheClose(info);
  }

  /** A run is its first turn, and then the rest. */
  lemma FirstThenRest<K>(s: System<K>, t: Turn<K>, rest: seq<Turn<K>>)
    requires Possible(s, t) && PossibleRun(Next(s, t.event, t.answers), rest)
    ensures PossibleRun(s, [t] + rest)
    ensures After(s, [t] + rest) == After(Next(s, t.event, t.answers), rest)
  {
    hide Next, Possible;
    assert ([t] + rest)[1..] == rest;
  }

  /** The entry stays in the registry, its handle forgotten and its device marked closed. */
  lemma AnEntryStays<K>(spare: K, info: DeviceInfo)
    ensures var start: System<K> := System([], map[], Plugged(info, false));
            && PossibleRun(start, OpenAndClose(spare))
            && var s := After(start, OpenAndClose(spare));
               var e := Entry(info.node, spare, 7, 1, "");
               s.registry == [e] && !Known(s, e) && !IsOpen(s.devices, 1)
  {
    var start: System<K> := System([], map[], Plugged(info, false));
    var turns := OpenAndClose(spare);
    hide OpenSession, CloseSession;
    FirstTurn(spare, info);
    SecondTurn(spare, info);
    FirstThenRest(InUse(spare, info), turns[1], []);
    FirstThenRest(start, turns[0], [turns[1]]);
    assert [turns[0]] + [turns[1]] == turns;
  }
}
