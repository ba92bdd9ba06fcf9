/**
 * When the agent's cache and the manager's list agree with the devices that
 * are present, for notifications that are handled one after the other while
 * clients copy and drop references at will.
 */
module DeviceAgreement {
  import opened DeviceModel

  datatype Change = Arrive(name: Name) | Leave(name: Name) | Borrow(device: Ref) | Release(device: Ref)

  /** A present device, with the controller its arrival created. */
  datatype Entry = Entry(name: Name, device: Ref)

  /** What the notifications alone say: the present devices in arrival order. */
  datatype Expected = Expected(present: seq<Entry>, arrivals: nat)

  /** The handler of one notification, with its synchronous delivery, or one
      client action. */
  function Handle(id: Ref -> nat, s: Sys, c: Change): Sys {
    match c
    case Arrive(name) =>
      Make(id, Make(id, s, ArrivalNotified(name)), Deliver(Arrived(Obtained(s, name))))
    case Leave(name) =>
      if name in s.cache && Live(s, s.cache[name]) then
        Make(id, Make(id, s, RemovalNotified(name)), Deliver(Departed(s.cache[name])))
      else Make(id, s, RemovalNotified(name))
    case Borrow(r) => if Possible(s, Copy(r)) then Make(id, s, Copy(r)) else s
    case Release(r) => if Possible(s, Drop(r)) then Make(id, s, Drop(r)) else s
  }

  /** The place of a name among the present devices; their number if absent. */
  function Place(present: seq<Entry>, name: Name): (i: nat)
    ensures i <= |present|
    ensures i < |present| ==> present[i].name == name
    ensures forall k :: 0 <= k < i ==> present[k].name != name
  {
    if present == [] || present[0].name == name then 0 else 1 + Place(present[1..], name)
  }

  predicate IsPresent(x: Expected, name: Name) {
    Place(x.present, name) < |x.present|
  }

  function Expect(x: Expected, c: Change): Expected {
    match c
    case Arrive(name) => Expected(x.present + [Entry(name, x.arrivals)], x.arrivals + 1)
    case Leave(name) =>
      var j := Place(x.present, name);
      if j < |x.present| then x.(present := x.present[..j] + x.present[j + 1..]) else x
    case _ => x
  }

  /** Each name alternates arrival and removal. */
  predicate Alternating(x: Expected, changes: seq<Change>)
    decreases |changes|
  {
    changes == []
    || ((changes[0].Arrive? ==> !IsPresent(x, changes[0].name))
        && (changes[0].Leave? ==> IsPresent(x, changes[0].name))
        && Alternating(Expect(x, changes[0]), changes[1..]))
  }

  /** No device that arrived before the leaving one shares its identifier. */
  predicate Unambiguous(id: Ref -> nat, x: Expected, c: Change) {
    c.Leave? && IsPresent(x, c.name) ==>
      var j := Place(x.present, c.name);
      forall i :: 0 <= i < j ==> id(x.present[i].device) != id(x.present[j].device)
  }

  predicate AlwaysUnambiguous(id: Ref -> nat, x: Expected, changes: seq<Change>)
    decreases |changes|
  {
    changes == []
    || (Unambiguous(id, x, changes[0]) && AlwaysUnambiguous(id, Expect(x, changes[0]), changes[1..]))
  }

  function Devices(present: seq<Entry>): (r: seq<Ref>)
    ensures |r| == |present|
    ensures forall i :: 0 <= i < |r| ==> r[i] == present[i].device
  {
    seq(|present|, i requires 0 <= i < |present| => present[i].device)
  }

  ghost predicate CacheHasNames(s: Sys, x: Expected) {
    forall n :: n in s.cache <==> IsPresent(x, n)
  }

  ghost predicate CacheHasDevices(s: Sys, x: Expected) {
    forall e :: e in x.present ==> e.name in s.cache && s.cache[e.name] == e.device
  }

  ghost predicate AllLive(s: Sys) {
    forall n :: n in s.cache ==> Live(s, s.cache[n])
  }

  /** The manager holds exactly the present devices in arrival order, the cache
      has exactly their names, each with its device's controller, all live. */
  ghost predicate Agree(s: Sys, x: Expected) {
    s.devices == Devices(x.present) && CacheHasNames(s, x) && CacheHasDevices(s, x) && AllLive(s)
  }

  ghost predicate AlwaysAgree(id: Ref -> nat, s: Sys, x: Expected, changes: seq<Change>)
    decreases |changes|
  {
    Agree(s, x)
    && (changes == [] || AlwaysAgree(id, Handle(id, s, changes[0]), Expect(x, changes[0]), changes[1..]))
  }

  /** Present names are distinct, and controllers are numbered by arrival. */
  ghost predicate Numbered(x: Expected) {
    && (forall i, j :: 0 <= i < j < |x.present| ==> x.present[i].name != x.present[j].name)
    && (forall i, j :: 0 <= i < j < |x.present| ==> x.present[i].device < x.present[j].device)
    && (forall i :: 0 <= i < |x.present| ==> x.present[i].device < x.arrivals)
  }

  ghost predicate InStep(s: Sys, x: Expected) {
    |s.births| == x.arrivals && s.managerAlive
  }

  lemma {:induction false} RemoveByIdAt(id: Ref -> nat, devices: seq<Ref>, j: nat) returns (i: nat)
    requires j < |devices|
    ensures i <= j && id(devices[i]) == id(devices[j])
    ensures forall k :: 0 <= k < i ==> id(devices[k]) != id(devices[j])
    ensures RemoveById(id, devices, devices[j]) == devices[..i] + devices[i + 1..]
  {
    if id(devices[0]) == id(devices[j]) {
      i := 0;
    } else {
      i := RemoveByIdAt(id, devices[1..], j - 1);
      i := i + 1;
      assert devices[..i] == [devices[0]] + devices[1..][..i - 1];
      assert devices[1..][i..] == devices[i + 1..];
    }
  }

  /** Removing by identifier removes the intended device if and only if no
      earlier one has the same identifier. */
  lemma RemovesTheRightOneIff(id: Ref -> nat, present: seq<Entry>, j: nat)
    requires j < |present|
    requires forall i, k :: 0 <= i < k < |present| ==> present[i].device < present[k].device
    ensures RemoveById(id, Devices(present), present[j].device) == Devices(present[..j] + present[j + 1..])
            <==> (forall i :: 0 <= i < j ==> id(present[i].device) != id(present[j].device))
  {
    var devices := Devices(present);
    var i := RemoveByIdAt(id, devices, j);
    var rest := Devices(present[..j] + present[j + 1..]);
    assert rest == devices[..j] + devices[j + 1..];
    if i < j {
      assert (devices[..i] + devices[i + 1..])[i] == devices[i + 1] != devices[i] == rest[i];
      assert id(present[i].device) == id(present[j].device);
    } else {
      forall k | 0 <= k < j
        ensures id(present[k].device) != id(present[j].device)
      {
        assert id(devices[k]) != id(devices[j]);
      }
    }
  }

  lemma PresentIff(x: Expected, name: Name)
    ensures IsPresent(x, name) <==> exists e :: e in x.present && e.name == name
  {
    if IsPresent(x, name) {
      assert x.present[Place(x.present, name)] in x.present;
    }
  }

  lemma LeavingKeepsNumbers(x: Expected, j: nat)
    requires Numbered(x) && j < |x.present|
    ensures Numbered(x.(present := x.present[..j] + x.present[j + 1..]))
  {
    var rest := x.present[..j] + x.present[j + 1..];
    forall i | 0 <= i < |rest|
      ensures rest[i] == x.present[if i < j then i else i + 1]
    {
    }
  }

  lemma ExpectIsNumbered(x: Expected, c: Change)
    requires Numbered(x) && (c.Arrive? ==> !IsPresent(x, c.name))
    ensures Numbered(Expect(x, c))
  {
    if c.Leave? && IsPresent(x, c.name) {
      LeavingKeepsNumbers(x, Place(x.present, c.name));
    }
  }

  /** Who is present after a change. */
  lemma PresentAfter(x: Expected, c: Change, e: Entry)
    requires Numbered(x) && (c.Leave? ==> IsPresent(x, c.name))
    ensures e in Expect(x, c).present <==>
            if c.Arrive? then e in x.present || e == Entry(c.name, x.arrivals)
            else if c.Leave? then e in x.present && e.name != c.name
            else e in x.present
  {
    if c.Leave? {
      var j := Place(x.present, c.name);
      assert x.present == x.present[..j] + [x.present[j]] + x.present[j + 1..];
      forall k | 0 <= k < |x.present| && k != j
        ensures x.present[k].name != c.name
      {
      }
    }
  }

  lemma NamesAfter(x: Expected, c: Change, n: Name)
    requires Numbered(x) && (c.Leave? ==> IsPresent(x, c.name))
    ensures IsPresent(Expect(x, c), n) <==>
            if c.Arrive? then IsPresent(x, n) || n == c.name
            else if c.Leave? then IsPresent(x, n) && n != c.name
            else IsPresent(x, n)
  {
    var y := Expect(x, c);
    PresentIff(x, n);
    PresentIff(y, n);
    if IsPresent(x, n) {
      PresentAfter(x, c, x.present[Place(x.present, n)]);
    }
    if IsPresent(y, n) {
      PresentAfter(x, c, y.present[Place(y.present, n)]);
    }
    if c.Arrive? {
      PresentAfter(x, c, Entry(c.name, x.arrivals));
    }
  }

  /** An arrival of an unknown name creates a controller, caches it and hands it
      to the manager. */
  lemma ArrivalHandled(id: Ref -> nat, s: Sys, name: Name)
    requires name !in s.cache && s.managerAlive
    ensures var r := |s.births|;
      Handle(id, s, Arrive(name)) ==
      s.(cache := s.cache[name := r], births := s.births + [Birth(name, Epoch(s, name))], devices := s.devices + [r])
  {
    assert s.notices + multiset{Arrived(|s.births|)} - multiset{Arrived(|s.births|)} == s.notices;
  }

  /** A removal of a cached live controller takes its name out of the cache and
      has the manager remove by its identifier. */
  lemma LeaveHandled(id: Ref -> nat, s: Sys, name: Name)
    requires name in s.cache && Live(s, s.cache[name]) && s.managerAlive
    ensures var r := s.cache[name];
      Handle(id, s, Leave(name)) ==
      s.(cache := s.cache - {name}, removals := s.removals[name := Epoch(s, name) + 1],
         devices := RemoveById(id, s.devices, r))
  {
    var r := s.cache[name];
    assert s.notices + multiset{Departed(r)} - multiset{Departed(r)} == s.notices;
  }

  lemma ArrivalAgrees(id: Ref -> nat, s: Sys, x: Expected, name: Name)
    requires Numbered(x) && InStep(s, x) && Agree(s, x) && !IsPresent(x, name)
    ensures Agree(Handle(id, s, Arrive(name)), Expect(x, Arrive(name)))
    ensures InStep(Handle(id, s, Arrive(name)), Expect(x, Arrive(name)))
  {
    var t, y := Handle(id, s, Arrive(name)), Expect(x, Arrive(name));
    ArrivalHandled(id, s, name);
    assert t.devices == Devices(y.present);
    forall n
      ensures n in t.cache <==> IsPresent(y, n)
    {
      NamesAfter(x, Arrive(name), n);
    }
    forall e | e in y.present
      ensures e.name in t.cache && t.cache[e.name] == e.device
    {
      PresentAfter(x, Arrive(name), e);
      PresentIff(x, name);
    }
    forall n | n in t.cache
      ensures Live(t, t.cache[n])
    {
      assert t.devices[|s.devices|] == x.arrivals;
      assert n != name ==> Live(s, s.cache[n]);
    }
  }

  lemma CacheAgreesAfterLeave(s: Sys, x: Expected, t: Sys, name: Name)
    requires Numbered(x) && Agree(s, x) && IsPresent(x, name)
    requires t.cache == s.cache - {name} && t.devices == Devices(Expect(x, Leave(name)).present)
    ensures Agree(t, Expect(x, Leave(name)))
  {
    var y := Expect(x, Leave(name));
    forall n
      ensures n in t.cache <==> IsPresent(y, n)
    {
      NamesAfter(x, Leave(name), n);
    }
    forall e | e in y.present
      ensures e.name in t.cache && t.cache[e.name] == e.device
    {
      PresentAfter(x, Leave(name), e);
    }
    forall n | n in t.cache
      ensures Live(t, t.cache[n])
    {
      var k := Place(y.present, n);
      assert y.present[k] in y.present;
      assert t.devices[k] == y.present[k].device;
    }
  }

  lemma CachedIsPresent(s: Sys, x: Expected, name: Name)
    requires Agree(s, x) && IsPresent(x, name)
    ensures name in s.cache && s.cache[name] == x.present[Place(x.present, name)].device
    ensures Live(s, s.cache[name]) && s.devices == Devices(x.present)
  {
    assert x.present[Place(x.present, name)] in x.present;
  }

  /** What a removal does to the manager's list, by identifier. */
  lemma ListAfterLeave(id: Ref -> nat, x: Expected, name: Name)
    requires Numbered(x) && IsPresent(x, name)
    ensures var r := x.present[Place(x.present, name)].device;
      RemoveById(id, Devices(x.present), r) == Devices(Expect(x, Leave(name)).present)
      <==> Unambiguous(id, x, Leave(name))
  {
    RemovesTheRightOneIff(id, x.present, Place(x.present, name));
  }

  lemma LeaveAgreesIff(id: Ref -> nat, s: Sys, x: Expected, name: Name)
    requires Numbered(x) && InStep(s, x) && Agree(s, x) && IsPresent(x, name)
    ensures Agree(Handle(id, s, Leave(name)), Expect(x, Leave(name))) <==> Unambiguous(id, x, Leave(name))
    ensures InStep(Handle(id, s, Leave(name)), Expect(x, Leave(name)))
  {
    var t := Handle(id, s, Leave(name));
    CachedIsPresent(s, x, name);
    LeaveHandled(id, s, name);
    ListAfterLeave(id, x, name);
    if t.devices == Devices(Expect(x, Leave(name)).present) {
      CacheAgreesAfterLeave(s, x, t, name);
    }
  }

  lemma ClientAgrees(id: Ref -> nat, s: Sys, x: Expected, c: Change)
    requires InStep(s, x) && Agree(s, x) && (c.Borrow? || c.Release?)
    ensures Agree(Handle(id, s, c), Expect(x, c)) && InStep(Handle(id, s, c), Expect(x, c))
  {
    var t := Handle(id, s, c);
    assert t == s.(hands := t.hands);
    forall n | n in s.cache
      ensures Live(t, s.cache[n])
    {
      var k := Place(x.present, n);
      assert x.present[k] in x.present;
      assert s.devices[k] == x.present[k].device;
    }
  }

  lemma {:induction false} AgreesIff(id: Ref -> nat, s: Sys, x: Expected, changes: seq<Change>)
    requires Numbered(x) && InStep(s, x) && Agree(s, x) && Alternating(x, changes)
    ensures AlwaysAgree(id, s, x, changes) <==> AlwaysUnambiguous(id, x, changes)
    decreases |changes|
  {
    if changes != [] {
      var c := changes[0];
      var t, y := Handle(id, s, c), Expect(x, c);
      match c {
        case Arrive(name) => ArrivalAgrees(id, s, x, name);
        case Leave(name) => LeaveAgreesIff(id, s, x, name);
        case _ => ClientAgrees(id, s, x, c);
      }
      ExpectIsNumbered(x, c);
      if Agree(t, y) {
        AgreesIff(id, t, y, changes[1..]);
      }
    }
  }

  const NOTHING: Expected := Expected([], 0)

  /** For every stream in which each name alternates arrival and removal, and
      for any identifiers: cache, manager and present devices agree after every
      change if and only if no device ever leaves while an earlier arrival with
      the same identifier is present. */
  lemma CacheAndManagerAgreeIff(id: Ref -> nat, changes: seq<Change>)
    requires Alternating(NOTHING, changes)
    ensures AlwaysAgree(id, InitSys(), NOTHING, changes) <==> AlwaysUnambiguous(id, NOTHING, changes)
  {
    AgreesIff(id, InitSys(), NOTHING, changes);
  }

  lemma {:induction false} DistinctIsUnambiguous(id: Ref -> nat, x: Expected, changes: seq<Change>)
    requires Numbered(x) && Alternating(x, changes)
    requires forall a: Ref, b: Ref :: a < b < x.arrivals + |changes| ==> id(a) != id(b)
    ensures AlwaysUnambiguous(id, x, changes)
    decreases |changes|
  {
    if changes != [] {
      ExpectIsNumbered(x, changes[0]);
      DistinctIsUnambiguous(id, Expect(x, changes[0]), changes[1..]);
    }
  }

  /** With distinct identifiers they always agree. */
  lemma DistinctIdsAgree(id: Ref -> nat, changes: seq<Change>)
    requires Alternating(NOTHING, changes)
    requires forall a: Ref, b: Ref :: a < b < |changes| ==> id(a) != id(b)
    ensures AlwaysAgree(id, InitSys(), NOTHING, changes)
  {
    DistinctIsUnambiguous(id, NOTHING, changes);
    CacheAndManagerAgreeIff(id, changes);
  }

  /** Every removal is of the device that has been present longest. */
  predicate OldestLeavesFirst(x: Expected, changes: seq<Change>)
    decreases |changes|
  {
    changes == []
    || ((changes[0].Leave? ==> Place(x.present, changes[0].name) == 0)
        && OldestLeavesFirst(Expect(x, changes[0]), changes[1..]))
  }

  function FallbackId(r: Ref): nat {
    DEVICE_ID_FALLBACK
  }

  lemma {:induction false} FallbackUnambiguousIff(x: Expected, changes: seq<Change>)
    requires Alternating(x, changes)
    ensures AlwaysUnambiguous(FallbackId, x, changes) <==> OldestLeavesFirst(x, changes)
    decreases |changes|
  {
    if changes != [] {
      FallbackUnambiguousIff(Expect(x, changes[0]), changes[1..]);
      if changes[0].Leave? {
        var j := Place(x.present, changes[0].name);
        if 0 < j {
          assert FallbackId(x.present[0].device) == FallbackId(x.present[j].device);
        }
      }
    }
  }

  /** As the UWB controllers are built, all with the same identifier, they agree
      throughout if and only if devices leave in the order they arrived. */
  lemma FallbackIdsAgreeIff(changes: seq<Change>)
    requires Alternating(NOTHING, changes)
    ensures AlwaysAgree(FallbackId, InitSys(), NOTHING, changes) <==> OldestLeavesFirst(NOTHING, changes)
  {
    CacheAndManagerAgreeIff(FallbackId, changes);
    FallbackUnambiguousIff(NOTHING, changes);
  }

  lemma TwoArrive(a: Name, b: Name)
    requires a != b
    ensures Handle(FallbackId, Handle(FallbackId, InitSys(), Arrive(a)), Arrive(b))
            == Sys(map[a := 0, b := 1], [0, 1], true, multiset{}, multiset{}, [Birth(a, 0), Birth(b, 0)], map[])
  {
    var s1 := Sys(map[a := 0], [0], true, multiset{}, multiset{}, [Birth(a, 0)], map[]);
    ArrivalHandled(FallbackId, InitSys(), a);
    assert Handle(FallbackId, InitSys(), Arrive(a)) == s1;
    ArrivalHandled(FallbackId, s1, b);
  }

  lemma SecondLeaves(s: Sys, a: Name, b: Name)
    requires a != b && s.cache == map[a := 0, b := 1] && s.devices == [0, 1] && s.managerAlive
    requires s.notices == multiset{} && s.hands == multiset{}
    ensures Handle(FallbackId, s, Leave(b))
            == s.(cache := map[a := 0], devices := [1], removals := s.removals[b := Epoch(s, b) + 1])
  {
    LeaveHandled(FallbackId, s, b);
    assert FallbackId(0) == FallbackId(1);
    assert s.cache - {b} == map[a := 0];
  }

  /** The removal of a device whose controller is dead passes nothing on. */
  lemma FirstLeavesToo(s: Sys, a: Name)
    requires s.cache == map[a := 0] && s.devices == [1] && s.notices == multiset{} && s.hands == multiset{}
    ensures !Live(s, 0)
    ensures Handle(FallbackId, s, Leave(a)).cache == map[] && Handle(FallbackId, s, Leave(a)).devices == [1]
  {
    assert s.cache - {a} == map[];
  }

  lemma WrongDeviceStream(a: Name, b: Name)
    requires a != b
    ensures Alternating(NOTHING, [Arrive(a), Arrive(b), Leave(b), Leave(a)])
  {
    var changes := [Arrive(a), Arrive(b), Leave(b), Leave(a)];
    var x1 := Expect(NOTHING, Arrive(a));
    var x2 := Expect(x1, Arrive(b));
    var x3 := Expect(x2, Leave(b));
    assert x1.present == [Entry(a, 0)] && x2.present == [Entry(a, 0), Entry(b, 1)];
    assert Place(x2.present, b) == 1 by {
      assert x2.present[0].name != b && x2.present[1].name == b;
    }
    assert x3.present == [Entry(a, 0)];
    assert changes[1..] == [Arrive(b), Leave(b), Leave(a)];
    assert changes[1..][1..] == [Leave(b), Leave(a)];
    assert changes[1..][1..][1..] == [Leave(a)];
    assert changes[1..][1..][1..][1..] == [];
    assert Alternating(x3, [Leave(a)]);
  }

  /** A stream that fails: two devices arrive and the second leaves. The manager
      then keeps the device that left and has released the one that is present,
      whose cache entry is dead; and when that one leaves too, the manager still
      keeps a device although none is present. */
  lemma WrongDeviceStays(a: Name, b: Name)
    requires a != b
    ensures Alternating(NOTHING, [Arrive(a), Arrive(b), Leave(b), Leave(a)])
    ensures
      var s2 := Handle(FallbackId, Handle(FallbackId, InitSys(), Arrive(a)), Arrive(b));
      var s3 := Handle(FallbackId, s2, Leave(b));
      var s4 := Handle(FallbackId, s3, Leave(a));
      && s3.births == [Birth(a, 0), Birth(b, 0)] && s3.devices == [1]
      && s3.cache == map[a := 0] && !Live(s3, 0)
      && s4.cache == map[] && s4.devices == [1]
  {
    WrongDeviceStream(a, b);
    TwoArrive(a, b);
    var s2 := Handle(FallbackId, Handle(FallbackId, InitSys(), Arrive(a)), Arrive(b));
    SecondLeaves(s2, a, b);
    FirstLeavesToo(Handle(FallbackId, s2, Leave(b)), a);
  }
}
