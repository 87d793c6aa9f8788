/** Whole runs of the service: every call of every client, with any HAL answer and devices coming and going,
    while a handle drawn for an open is new to the registry. */
module SessionRuns {
  import opened DeviceManager
  import opened VirtualDevice
  import opened BackedHandles
  import opened Sessions
  import opened SessionHealth
  import opened SessionTeardown
  import opened LeftRegistered

  /** An event and the answers it meets. */
  datatype Turn<K> = Turn(event: Event<K>, answers: nat -> Answers)

  /** The event is a request of the service, and what it allocates is new: the manager, if it starts one,
      and the handle it draws, which the code compares with those of the same manager only. */
  ghost predicate Possible<K>(s: System<K>, t: Turn<K>) {
    && Routable(t.event)
    && (t.event.Opens? ==>
          && (Unserved(s, t.event.deviceId) ==> t.event.spare !in s.managers)
          && NewToRegistry(s.registry, Drawn(Serving(s, t.event.deviceId), t.answers(0))))
  }

  /** Whatever it meets, the event leaves no registered handle of an unplugged device at a calm node. */
  ghost predicate Calm<K>(s: System<K>, e: Event<K>, calm: iset<string>) {
    e.Unplugs? ==> Settled(s, e.id, calm)
  }

  lemma NextHealthy<K>(s: System<K>, t: Turn<K>, calm: iset<string>)
    requires Healthy(s, calm) && Possible(s, t) && Calm(s, t.event, calm)
    ensures Healthy(Next(s, t.event, t.answers), calm)
  {
    hide Healthy, Settled;
    match t.event
    case Opens(deviceId, apppriority, spare) => OpenHealthy(s, deviceId, apppriority, spare, t.answers(0), calm);
    case Closes(h) => CloseHealthy(s, h, t.answers(0), calm);
    case Calls(op) => RouteHealthy(s, op, t.answers(0), calm);
    case NamesClient(h, name) => SetClientHealthy(s, h, name, calm);
    case TearsDown(w) => TeardownHealthy(s, 0, w, t.answers, calm);
    case PlugsIn(info) => PlugHealthy(s, info, calm);
    case Unplugs(id) => UnplugHealthy(s, id, calm);
  }

  ghost predicate PossibleRun<K>(s: System<K>, turns: seq<Turn<K>>)
    decreases |turns|
  {
    |turns| == 0 || (Possible(s, turns[0]) && PossibleRun(Next(s, turns[0].event, turns[0].answers), turns[1..]))
  }

  ghost predicate CalmRun<K>(s: System<K>, turns: seq<Turn<K>>, calm: iset<string>)
    requires PossibleRun(s, turns)
    decreases |turns|
  {
    |turns| == 0 ||
    (Calm(s, turns[0].event, calm) && CalmRun(Next(s, turns[0].event, turns[0].answers), turns[1..], calm))
  }

  ghost function After<K>(s: System<K>, turns: seq<Turn<K>>): System<K>
    requires PossibleRun(s, turns)
    decreases |turns|
  {
    if |turns| == 0 then s else After(Next(s, turns[0].event, turns[0].answers), turns[1..])
  }

  lemma {:induction false} RunHealthy<K>(s: System<K>, turns: seq<Turn<K>>, calm: iset<string>)
    requires Healthy(s, calm) && PossibleRun(s, turns) && CalmRun(s, turns, calm)
    ensures Healthy(After(s, turns), calm)
    decreases |turns|
  {
    if |turns| == 0 {
    } else {
      hide Healthy, Next;
      NextHealthy(s, turns[0], calm);
      RunHealthy(Next(s, turns[0].event, turns[0].answers), turns[1..], calm);
    }
  }

  /** At no node at all every run is calm. */
  lemma {:induction false} CalmNowhere<K>(s: System<K>, turns: seq<Turn<K>>)
    requires PossibleRun(s, turns)
    ensures CalmRun(s, turns, iset{})
    decreases |turns|
  {
    if |turns| != 0 {
      hide Next;
      CalmNowhere(Next(s, turns[0].event, turns[0].answers), turns[1..]);
    }
  }

  /** From an empty registry, through any calls of any clients, any HAL answers and any plugging and
      unplugging: no manager, still in use or dropped, ever asked for a physical close while one of its
      handles was streaming or previewing, or while any handle but the closing one was registered. */
  lemma PhysicalCloseIsLast<K>(devices: DeviceMap, turns: seq<Turn<K>>)
    requires PossibleRun(System([], map[], devices), turns)
    ensures var s := After(System([], map[], devices), turns);
            forall k :: k in s.managers ==> TimelyCloses(s.managers[k].hal.calls)
  {
    CalmNowhere(System([], map[], devices), turns);
    RunHealthy(System([], map[], devices), turns, iset{});
    var s := After(System([], map[], devices), turns);
    forall k | k in s.managers ensures TimelyCloses(s.managers[k].hal.calls) {
      assert Sound(s.managers[k]);
    }
  }

  /** In every run, with any unplugging: an entry whose handle its manager still knows is registered there,
      and belongs to a device that is plugged in, at the entry's node, and marked open. */
  lemma RegisteredMeansOpen<K>(devices: DeviceMap, turns: seq<Turn<K>>)
    requires PossibleRun(System([], map[], devices), turns)
    ensures var s := After(System([], map[], devices), turns);
            forall e :: e in s.registry ==>
              e.manager in s.managers && (e.handle in s.managers[e.manager].handles ==> RegisteredFor(s, e))
  {
    CalmNowhere(System([], map[], devices), turns);
    RunHealthy(System([], map[], devices), turns, iset{});
    var s := After(System([], map[], devices), turns);
    forall e | e in s.registry
      ensures e.manager in s.managers && (e.handle in s.managers[e.manager].handles ==> RegisteredFor(s, e))
    {
      assert Served(s, e, iset{});
    }
  }

  /** Camera by camera: while no open device is unplugged from node `node` that shares it with other devices'
      entries and has a handle that can outstay its release, every handle in the priority map of the manager in
      use there, with or without an entry, is backed by an open device at the node, whatever happens at other
      nodes. */
  lemma BackedAtNode<K>(devices: DeviceMap, turns: seq<Turn<K>>, node: string)
    requires PossibleRun(System([], map[], devices), turns)
    requires CalmRun(System([], map[], devices), turns, iset{node})
    ensures var s := After(System([], map[], devices), turns);
            forall e :: e in s.registry && e.node == node ==>
              e.manager in s.managers && Backed(s.managers[e.manager], s.devices, node)
  {
    RunHealthy(System([], map[], devices), turns, iset{node});
    var s := After(System([], map[], devices), turns);
    forall e | e in s.registry && e.node == node
      ensures e.manager in s.managers && Backed(s.managers[e.manager], s.devices, node)
    {
      assert Served(s, e, iset{node});
    }
  }

  /** Teardown is exact at any point of any run. */
  lemma TeardownAnytime<K>(devices: DeviceMap, turns: seq<Turn<K>>, w: Whose, answers: nat -> Answers)
    requires PossibleRun(System([], map[], devices), turns)
    ensures var s := After(System([], map[], devices), turns); var t := Teardown(s, 0, w, answers);
            && t.registry == Remaining(s.registry, w)
            && ((forall n :: Willing(answers(n))) ==> AllCleared(s, t, s.registry, w))
  {
    hide Teardown, AllCleared;
    CalmNowhere(System([], map[], devices), turns);
    RunHealthy(System([], map[], devices), turns, iset{});
    TeardownIsExact(After(System([], map[], devices), turns), w, answers, iset{});
  }

  /** Naming a client is what its teardown goes by: once handle `h` is named for client `name`, tearing that client
      down takes the entry along, with the client's others and no more; with good answers the handle is gone
      from its manager too. */
  lemma NamedClientIsTaken<K>(s: System<K>, h: int, name: string, answers: nat -> Answers, calm: iset<string>)
    requires Healthy(s, calm) && h != INVALID_ID && Find(s.registry, h) < |s.registry|
    ensures var t := Teardown(SetClient(s, h, name), 0, OfClient(name), answers);
            && (forall f :: f in t.registry <==> f in s.registry && f.handle != h && f.client != name)
            && ((forall n :: Willing(answers(n))) ==>
                  var k := s.registry[Find(s.registry, h)].manager;
                  k in t.managers && h !in t.managers[k].handles && h !in t.managers[k].priority)
  {
    var u := SetClient(s, h, name);
    var i := Find(s.registry, h);
    var t := Teardown(u, 0, OfClient(name), answers);
    var e := u.registry[i];
    SetClientHealthy(s, h, name, calm);
    TeardownIsExact(u, OfClient(name), answers, calm);
    hide Teardown, Healthy, Remaining;
    forall f ensures f in t.registry <==> f in s.registry && f.handle != h && f.client != name {
      RemainingAre(u.registry, OfClient(name), f);
      NamedEntries(s, h, name, f, calm);
    }
    if forall n :: Willing(answers(n)) {
      assert Cleared(u.managers[e.manager], t.managers[e.manager], Gone(u.registry, OfClient(name), e.manager))
        by { InUse(u, e, calm); }
      assert e in u.registry && Selected(OfClient(name), e);
      assert h in Gone(u.registry, OfClient(name), e.manager);
    }
  }

  lemma InUse<K>(s: System<K>, e: Entry<K>, calm: iset<string>)
    requires Healthy(s, calm) && e in s.registry
    ensures e.manager in s.managers
  {
    assert Served(s, e, calm);
  }

  lemma NamedEntries<K>(s: System<K>, h: int, name: string, f: Entry<K>, calm: iset<string>)
    requires Healthy(s, calm) && h != INVALID_ID && Find(s.registry, h) < |s.registry|
    ensures f in SetClient(s, h, name).registry && f.client != name <==>
            f in s.registry && f.handle != h && f.client != name
  {
    var i, r := Find(s.registry, h), SetClient(s, h, name).registry;
    if f in s.registry && f.handle != h {
      var j :| 0 <= j < |s.registry| && s.registry[j] == f;
      assert r[j] == f;
    }
    if f in r && f.client != name {
      var j :| 0 <= j < |r| && r[j] == f;
      assert s.registry[j] == f && j != i;
    }
  }
}
