/** What opening and closing a session do to the registry, and how its entries are ordered. */
module SessionLaws {
  import opened DeviceManager
  import opened VirtualDevice
  import opened BackedHandles
  import opened Sessions
  import opened SessionHealth

  // ---- close ----

  /** A close takes the entry of its handle off the registry exactly if the manager answers that it is closed, or was
      already; a handle without an entry changes nothing. */
  lemma CloseTakesEntry<K>(s: System<K>, h: int, a: Answers, calm: iset<string>)
    requires Healthy(s, calm)
    ensures var r := CloseSession(s, h, a);
            && (forall e :: e in r.system.registry <==>
                  e in s.registry && !(e.handle == h && h != INVALID_ID && (r.code == OK || r.code == AlreadyClosed)))
            && (h == INVALID_ID ==> r == Result(WrongParam, s))
            && (h != INVALID_ID && (forall e :: e in s.registry ==> e.handle != h) ==> r == Result(AlreadyClosed, s))
  {
    var i := Find(s.registry, h);
    if h != INVALID_ID && i < |s.registry| {
      RemoveAtKeeps(s.registry, i);
    }
    hide Close;
  }

  /** A call reaches the manager of the entry of its handle and no other; one without an entry changes nothing. */
  lemma RouteReaches<K>(s: System<K>, op: Op, a: Answers, e: Entry<K>, calm: iset<string>)
    requires Healthy(s, calm) && !op.DoOpen? && !op.DoClose? && e in s.registry && Target(op) == e.handle
    requires e.handle != INVALID_ID
    ensures e.manager in s.managers
    ensures var o := Step(s.managers[e.manager], s.devices, op, a); var r := Route(s, op, a);
            && r.code == o.code && r.system.registry == s.registry && r.system.devices == s.devices
            && r.system.managers == s.managers[e.manager := o.vdm]
  {
    assert Served(s, e, calm);
    CallKeepsDevices(s.managers[e.manager], s.devices, op, a);
    hide Step;
  }

  lemma RouteUnknown<K>(s: System<K>, op: Op, a: Answers)
    requires !op.DoOpen? && !op.DoClose? && forall e :: e in s.registry ==> e.handle != Target(op)
    ensures Route(s, op, a) == Result(if Target(op) == INVALID_ID then WrongParam else Unknown, s)
  {
  }

  // ---- open ----

  /** A granted open adds exactly one entry, for the handle it returns, at the node of the device and with the manager
      that serves it; a refused one adds none and starts no manager. */
  lemma OpenAddsEntry<K>(s: System<K>, deviceId: int, apppriority: string, spare: K, a: Answers, calm: iset<string>)
    requires Healthy(s, calm) && NewToRegistry(s.registry, Drawn(Serving(s, deviceId), a))
    requires Unserved(s, deviceId) ==> spare !in s.managers
    ensures var o := Open(Serving(s, deviceId), s.devices, deviceId, apppriority, a);
            var r := OpenSession(s, deviceId, apppriority, spare, a);
            var node := NodeOf(s.devices, deviceId);
            && r.code == o.code && r.system.devices == o.devices
            && (if r.code == OK then
                  exists e :: IsWith(r.system.registry, s.registry, e)
                    && e.handle == o.handle && e.deviceId == deviceId && e.node == node && e.client == ""
                    && e.manager in r.system.managers && r.system.managers[e.manager] == o.vdm
                    && (Unserved(s, deviceId) ==> e.manager == spare)
                    && (forall f :: f in s.registry ==> (f.node == node <==> f.manager == e.manager))
                else
                  && r.system.registry == s.registry && r.system.managers.Keys == s.managers.Keys)
  {
    var node := NodeOf(s.devices, deviceId);
    var i := FindNode(s.registry, node);
    var v := Serving(s, deviceId);
    var k := if i < |s.registry| then s.registry[i].manager else spare;
    var o := Open(v, s.devices, deviceId, apppriority, a);
    if i < |s.registry| {
      assert Served(s, s.registry[i], calm) && Sound(s.managers[k]);
    }
    OpenEffect(v, s.devices, deviceId, apppriority, a);
    hide Open, Drawn;
    if o.code == OK {
      var e := Entry(node, k, o.handle, deviceId, "");
      InsertKeeps(s.registry, e);
      forall f | f in s.registry ensures f.node == node <==> f.manager == k {
        assert Served(s, f, calm);
      }
    }
  }

  // ---- the order of the registry ----

  /** std::string's order: a proper prefix comes first, and otherwise the first difference decides. */
  predicate Lexicographic(a: string, b: string, k: nat) {
    && k <= |a| && k < |b| && a[..k] == b[..k]
    && (k == |a| || a[k] < b[k])
  }

  lemma {:induction false} BeforeIsLexicographic(a: string, b: string)
    ensures Before(a, b) <==> exists k: nat :: Lexicographic(a, b, k)
  {
    if b != "" && a != "" {
      BeforeIsLexicographic(a[1..], b[1..]);
      assert a == [a[0]] + a[1..] && b == [b[0]] + b[1..];
      if Before(a, b) {
        if a[0] < b[0] {
          assert Lexicographic(a, b, 0);
        } else {
          var k: nat :| Lexicographic(a[1..], b[1..], k);
          assert a[..k + 1] == [a[0]] + a[1..][..k] && b[..k + 1] == [b[0]] + b[1..][..k];
          assert Lexicographic(a, b, k + 1);
        }
      }
      if k: nat :| Lexicographic(a, b, k) {
        if k > 0 {
          assert a[0] == a[..k][0] == b[..k][0] == b[0];
          assert a[1..][..k - 1] == a[..k][1..] && b[1..][..k - 1] == b[..k][1..];
          assert Lexicographic(a[1..], b[1..], k - 1);
        }
      }
    } else if b != "" {
      assert Lexicographic(a, b, 0);
    }
  }
}
