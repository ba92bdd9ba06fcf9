/** The discovery agent's own methods, each one or more moves of the relation. */
module DeviceDiscoveryAgentCode {
  import opened Prelude
  import opened DeviceModel

  datatype NotifyAction = InterfaceArrival | InterfaceRemoval | OtherAction

  function ProbeMoves(names: seq<Name>): seq<Move> {
    seq(|names|, i requires 0 <= i < |names| => ProbeName(names[i]))
  }

  /** The state after obtaining a controller for each name in turn, which the
      caller then holds. */
  function Probed(s: Sys, names: seq<Name>): Sys {
    if names == [] then s
    else
      var before := Probed(s, names[..|names| - 1]);
      var name := names[|names| - 1];
      WithCached(before, name).(hands := before.hands + multiset{Obtained(before, name)})
  }

  /** The controllers obtained. */
  function ProbedDevices(s: Sys, names: seq<Name>): (r: seq<Ref>)
    ensures |r| == |names|
  {
    if names == [] then []
    else
      var n := |names| - 1;
      ProbedDevices(s, names[..n]) + [Obtained(Probed(s, names[..n]), names[n])]
  }

  /** Obtaining one more controller disturbs no held one that is cached. */
  lemma ObtainingKeepsHeld(s: Sys, name: Name, other: Name)
    ensures var t := WithCached(s, name);
      && t.cache == s.cache[name := Obtained(s, name)]
      && (other in s.cache && s.cache[other] in s.hands ==> t.cache[other] == s.cache[other])
  {
    if name in s.cache && Live(s, s.cache[name]) {
      assert s.cache[name := s.cache[name]] == s.cache;
    }
  }

  lemma ProbedLast(s: Sys, names: seq<Name>)
    requires names != []
    ensures var n := |names| - 1; var before := Probed(s, names[..n]); var r := Obtained(before, names[n]);
      && ProbedDevices(s, names) == ProbedDevices(s, names[..n]) + [r]
      && Probed(s, names).hands == before.hands + multiset{r}
      && Probed(s, names).cache == before.cache[names[n] := r]
  {
    var n := |names| - 1;
    ObtainingKeepsHeld(Probed(s, names[..n]), names[n], names[n]);
  }

  /** The cache holds each device under its name, and someone holds each device. */
  ghost predicate HoldsResults(cache: map<Name, Ref>, hands: multiset<Ref>, names: seq<Name>, devices: seq<Ref>)
    requires |names| == |devices|
  {
    forall i :: 0 <= i < |names| ==> names[i] in cache && cache[names[i]] == devices[i] && devices[i] in hands
  }

  lemma OneMoreResult(cache: map<Name, Ref>, hands: multiset<Ref>, names: seq<Name>, devices: seq<Ref>, n: nat)
    requires |names| == |devices| == n + 1
    requires HoldsResults(cache, hands, names[..n], devices[..n])
    requires names[n] in cache && cache[names[n]] in hands ==> devices[n] == cache[names[n]]
    ensures HoldsResults(cache[names[n] := devices[n]], hands + multiset{devices[n]}, names, devices)
  {
    forall i | 0 <= i < n
      ensures names[i] in cache && cache[names[i]] == devices[i] && devices[i] in hands
    {
      assert names[..n][i] == names[i] && devices[..n][i] == devices[i];
    }
  }

  /** After a probe the cache holds every result under its name, and it is live. */
  lemma {:induction false} ProbedCacheHolds(s: Sys, names: seq<Name>)
    ensures HoldsResults(Probed(s, names).cache, Probed(s, names).hands, names, ProbedDevices(s, names))
  {
    if names != [] {
      var n := |names| - 1;
      var before := Probed(s, names[..n]);
      ProbedCacheHolds(s, names[..n]);
      ProbedLast(s, names);
      assert ProbedDevices(s, names)[..n] == ProbedDevices(s, names[..n]);
      OneMoreResult(before.cache, before.hands, names, ProbedDevices(s, names), n);
    }
  }

  /** Every other name is cached as before. */
  lemma {:induction false} ProbedCacheKeeps(s: Sys, names: seq<Name>, other: Name)
    requires other !in names
    ensures other in Probed(s, names).cache <==> other in s.cache
    ensures other in s.cache ==> Probed(s, names).cache[other] == s.cache[other]
  {
    if names != [] {
      var n := |names| - 1;
      assert names == names[..n] + [names[n]];
      ObtainingKeepsHeld(Probed(s, names[..n]), names[n], other);
      ProbedCacheKeeps(s, names[..n], other);
    }
  }

  /** A probe keeps the cache invariant, so different names it enumerates have
      different controllers. */
  lemma {:induction false} ProbedKeepsCache(s: Sys, names: seq<Name>)
    requires CacheInv(s)
    ensures CacheInv(Probed(s, names))
  {
    if names != [] {
      var n := |names| - 1;
      var before := Probed(s, names[..n]);
      ProbedKeepsCache(s, names[..n]);
      CachingKeepsCache(before, names[n]);
      HoldingTheCached(WithCached(before, names[n]), Probed(s, names), names[n]);
      HoldersMayChange(WithCached(before, names[n]), Probed(s, names));
    }
  }

  /** What the cache holds after a probe. */
  lemma CacheAfterProbe(s: Sys, names: seq<Name>)
    ensures var t, devices := Probed(s, names), ProbedDevices(s, names);
      && (forall i :: 0 <= i < |names| ==> names[i] in t.cache && t.cache[names[i]] == devices[i])
      && (forall n :: n !in names ==>
            (n in t.cache <==> n in s.cache) && (n in t.cache ==> t.cache[n] == s.cache[n]))
  {
    ProbedCacheHolds(s, names);
    forall n | n !in names
      ensures n in Probed(s, names).cache <==> n in s.cache
      ensures n in s.cache ==> Probed(s, names).cache[n] == s.cache[n]
    {
      ProbedCacheKeeps(s, names, n);
    }
  }

  lemma ProbedNext(s: Sys, names: seq<Name>, k: nat)
    requires k < |names|
    ensures var before := Probed(s, names[..k]); var r := Obtained(before, names[k]);
      && Probed(s, names[..k + 1]) == WithCached(before, names[k]).(hands := before.hands + multiset{r})
      && ProbedDevices(s, names[..k + 1]) == ProbedDevices(s, names[..k]) + [r]
  {
    assert names[..k + 1][..k] == names[..k];
  }

  lemma CacheIsInjective(s: Sys, m: Name, n: Name)
    requires CacheInv(s) && m in s.cache && n in s.cache && s.cache[m] == s.cache[n]
    ensures m == n
  {
  }

  lemma {:induction false} ProbedIsMoves(id: Ref -> nat, s: Sys, names: seq<Name>)
    ensures ValidMoves(id, s, ProbeMoves(names)) && MakeAll(id, s, ProbeMoves(names)) == Probed(s, names)
  {
    if names != [] {
      var n := |names| - 1;
      ProbedIsMoves(id, s, names[..n]);
      assert ProbeMoves(names) == ProbeMoves(names[..n]) + [ProbeName(names[n])];
      OneMoreMove(id, s, ProbeMoves(names[..n]), ProbeName(names[n]));
    }
  }

  /** The manager adds each of these devices, in their order. */
  function AddMoves(devices: seq<Ref>): seq<Move> {
    if devices == [] then []
    else AddMoves(devices[..|devices| - 1]) + [AddProbed(devices[|devices| - 1])]
  }

  /** From `t` to `e` these devices move from the probe's hands to the end of the
      manager's list, and nothing else changes. */
  predicate AreAdded(t: Sys, e: Sys, devices: seq<Ref>, kept: multiset<Ref>) {
    && e.devices == t.devices + devices && e.hands == kept
    && e == t.(devices := e.devices, hands := e.hands)
  }

  lemma AddingOne(id: Ref -> nat, s: Sys, run: seq<Move>, r: Ref, kept: multiset<Ref>)
    requires ValidMoves(id, s, run)
    requires var t := MakeAll(id, s, run); t.managerAlive && t.hands == kept + multiset{r}
    ensures ValidMoves(id, s, run + [AddProbed(r)])
    ensures AreAdded(MakeAll(id, s, run), MakeAll(id, s, run + [AddProbed(r)]), [r], kept)
  {
    OneMoreMove(id, s, run, AddProbed(r));
    assert kept + multiset{r} - multiset{r} == kept;
  }

  lemma AddedTogether(t: Sys, u: Sys, e: Sys, front: seq<Ref>, last: seq<Ref>, held: multiset<Ref>, kept: multiset<Ref>)
    requires AreAdded(t, u, front, held) && AreAdded(u, e, last, kept)
    ensures AreAdded(t, e, front + last, kept)
  {
    assert t.devices + front + last == t.devices + (front + last);
  }

  lemma AddMovesLast(front: seq<Ref>, last: Ref, run: seq<Move>)
    ensures run + AddMoves(front + [last]) == run + AddMoves(front) + [AddProbed(last)]
  {
    assert (front + [last])[..|front|] == front;
  }

  /** One device more. */
  lemma AddingLast(id: Ref -> nat, s: Sys, run: seq<Move>, front: seq<Ref>, last: Ref, kept: multiset<Ref>)
    requires ValidMoves(id, s, run) && ValidMoves(id, s, run + AddMoves(front)) && MakeAll(id, s, run).managerAlive
    requires AreAdded(MakeAll(id, s, run), MakeAll(id, s, run + AddMoves(front)), front, kept + multiset{last})
    ensures ValidMoves(id, s, run + AddMoves(front + [last]))
    ensures AreAdded(MakeAll(id, s, run), MakeAll(id, s, run + AddMoves(front + [last])), front + [last], kept)
  {
    var most := run + AddMoves(front);
    AddingOne(id, s, most, last, kept);
    AddedTogether(MakeAll(id, s, run), MakeAll(id, s, most), MakeAll(id, s, most + [AddProbed(last)]),
                  front, [last], kept + multiset{last}, kept);
    AddMovesLast(front, last, run);
  }

  /** After a run that leaves devices held for it, the manager adds them, one
      after the other. */
  lemma {:induction false} AddingAll(id: Ref -> nat, s: Sys, run: seq<Move>, devices: seq<Ref>, kept: multiset<Ref>)
    requires ValidMoves(id, s, run)
    requires MakeAll(id, s, run).managerAlive && MakeAll(id, s, run).hands == kept + multiset(devices)
    ensures ValidMoves(id, s, run + AddMoves(devices))
    ensures AreAdded(MakeAll(id, s, run), MakeAll(id, s, run + AddMoves(devices)), devices, kept)
    decreases |devices|
  {
    if devices == [] {
      assert run + [] == run;
    } else {
      var n := |devices| - 1;
      assert devices == devices[..n] + [devices[n]];
      assert kept + multiset(devices) == kept + multiset{devices[n]} + multiset(devices[..n]);
      AddingAll(id, s, run, devices[..n], kept + multiset{devices[n]});
      AddingLast(id, s, run, devices[..n], devices[n], kept);
    }
  }

  lemma {:induction false} ProbedHolders(s: Sys, names: seq<Name>)
    ensures var t := Probed(s, names);
      && t.hands == s.hands + multiset(ProbedDevices(s, names))
      && t.devices == s.devices && t.notices == s.notices && t.managerAlive == s.managerAlive
  {
    if names != [] {
      ProbedHolders(s, names[..|names| - 1]);
      ProbedLast(s, names);
    }
  }

  /** What a manager that is given a started agent does: it probes, and adds every
      device the probe found to the end of its list, in the probe's order; it
      keeps no other reference to them. */
  lemma ProbeIsAdded(id: Ref -> nat, s: Sys, names: seq<Name>)
    requires s.managerAlive
    ensures var moves := ProbeMoves(names) + AddMoves(ProbedDevices(s, names));
      && ValidMoves(id, s, moves)
      && var e := MakeAll(id, s, moves);
      && e.devices == s.devices + ProbedDevices(s, names)
      && e.hands == s.hands && e.notices == s.notices && e.managerAlive
      && e.cache == Probed(s, names).cache
  {
    var devices := ProbedDevices(s, names);
    ProbedIsMoves(id, s, names);
    ProbedHolders(s, names);
    AddingAll(id, s, ProbeMoves(names), devices, s.hands);
  }

  class NearObjectDeviceDiscoveryAgentUwb {
    var cache: map<Name, Ref>
    // How many controllers have been created.
    var created: nat
    ghost var model: Sys

    ghost predicate Valid()
      reads this
    {
      model.cache == cache && |model.births| == created
    }

    constructor ()
      ensures Valid() && model == InitSys()
    {
      cache, created, model := map[], 0, InitSys();
    }

    /** `lock` says which weak pointers can still be promoted. */
    method AddCachedUwbNearObjectDevice(deviceName: Name, lock: Ref -> bool) returns (device: Ref)
      requires Valid() && forall r: Ref :: lock(r) <==> Live(model, r)
      modifies this
      ensures Valid() && model == WithCached(old(model), deviceName)
      ensures device == Obtained(old(model), deviceName)
      ensures cache == old(cache)[deviceName := device]
      ensures (deviceName in old(cache) && lock(old(cache)[deviceName]) && created == old(created))
              || (device == old(created) && created == old(created) + 1)
    {
      model := WithCached(model, deviceName);
      if deviceName in cache {
        var weak := cache[deviceName];
        if lock(weak) {
          assert cache == cache[deviceName := weak];
          return weak;
        }
        cache := cache - {deviceName};
      }
      device := created;
      created := created + 1;
      cache := cache[deviceName := device];
    }

    method ExtractCachedNearObjectDevice(deviceName: Name, lock: Ref -> bool) returns (device: Option<Ref>)
      requires Valid() && forall r: Ref :: lock(r) <==> Live(model, r)
      modifies this`cache
      ensures cache == old(cache) - {deviceName}
      ensures device == if deviceName in old(cache) && lock(old(cache)[deviceName])
                        then Some(old(cache)[deviceName]) else None
    {
      if deviceName !in cache {
        assert cache - {deviceName} == cache;
        return None;
      }
      var weak := cache[deviceName];
      cache := cache - {deviceName};
      return if lock(weak) then Some(weak) else None;
    }

    /** The result is the change passed on to the manager, if any. */
    method OnDeviceInterfaceNotification(
        action: NotifyAction, deviceName: Name, lock: Ref -> bool, ghost id: Ref -> nat)
      returns (notice: Option<Notice>)
      requires Valid() && forall r: Ref :: lock(r) <==> Live(model, r)
      modifies this
      ensures Valid()
      ensures model == match action
                       case InterfaceArrival => Make(id, old(model), ArrivalNotified(deviceName))
                       case InterfaceRemoval => Make(id, old(model), RemovalNotified(deviceName))
                       case OtherAction => old(model)
      ensures model.notices ==
              old(model).notices + (if notice.Some? then multiset{notice.value} else multiset{})
    {
      match action {
        case InterfaceArrival =>
          var device := AddCachedUwbNearObjectDevice(deviceName, lock);
          model := Make(id, old(model), ArrivalNotified(deviceName));
          notice := Some(Arrived(device));
        case InterfaceRemoval =>
          var device := ExtractCachedNearObjectDevice(deviceName, lock);
          model := Make(id, old(model), RemovalNotified(deviceName));
          notice := if device.Some? then Some(Departed(device.value)) else None;
        case OtherAction =>
          notice := None;
      }
    }

    /** One name of a probe: its controller is held from then on. */
    method ProbeOne(deviceName: Name, lock: Ref -> bool, held: seq<Ref>) returns (device: Ref)
      requires Valid() && forall r: Ref :: lock(r) || r in held <==> Live(model, r)
      modifies this
      ensures Valid() && cache == old(cache)[deviceName := device]
      ensures model == WithCached(old(model), deviceName).(hands := old(model).hands + multiset{device})
      ensures device == Obtained(old(model), deviceName)
      ensures deviceName in old(cache) && old(cache)[deviceName] in held ==> device == old(cache)[deviceName]
      ensures forall r: Ref :: lock(r) || r in held + [device] <==> Live(model, r)
    {
      device := AddCachedUwbNearObjectDevice(deviceName, (r: Ref) => lock(r) || r in held);
      model := model.(hands := model.hands + multiset{device});
    }

    /** Obtains a controller for every enumerated name: at the end the cache holds
        each result under its name, and every other name as before. */
    method Probe(deviceInterfaceNames: seq<Name>, lock: Ref -> bool) returns (devices: seq<Ref>)
      requires Valid() && forall r: Ref :: lock(r) <==> Live(model, r)
      modifies this
      ensures Valid() && model == Probed(old(model), deviceInterfaceNames)
      ensures devices == ProbedDevices(old(model), deviceInterfaceNames)
      ensures forall i :: 0 <= i < |devices| ==>
                deviceInterfaceNames[i] in cache && cache[deviceInterfaceNames[i]] == devices[i]
      ensures forall n :: n !in deviceInterfaceNames ==>
                (n in cache <==> n in old(cache)) && (n in cache ==> cache[n] == old(cache)[n])
    {
      devices := [];
      for k := 0 to |deviceInterfaceNames|
        invariant Valid()
        invariant model == Probed(old(model), deviceInterfaceNames[..k])
        invariant devices == ProbedDevices(old(model), deviceInterfaceNames[..k])
        invariant forall r: Ref :: lock(r) || r in devices <==> Live(model, r)
      {
        var device := ProbeOne(deviceInterfaceNames[k], lock, devices);
        devices := devices + [device];
        ProbedNext(old(model), deviceInterfaceNames, k);
      }
      assert deviceInterfaceNames[..|deviceInterfaceNames|] == deviceInterfaceNames;
      CacheAfterProbe(old(model), deviceInterfaceNames);
    }
  }

  /** Two names enumerated by one probe give the same controller exactly when they
      are the same name. */
  lemma ProbeIsInjective(s: Sys, names: seq<Name>, i: nat, j: nat)
    requires CacheInv(s) && i < |names| && j < |names|
    ensures ProbedDevices(s, names)[i] == ProbedDevices(s, names)[j] <==> names[i] == names[j]
  {
    ProbedKeepsCache(s, names);
    ProbedCacheHolds(s, names);
    if ProbedDevices(s, names)[i] == ProbedDevices(s, names)[j] {
      CacheIsInjective(Probed(s, names), names[i], names[j]);
    }
  }
}
