/**
 * The manager's device list over any sequence of arrivals and departures, from
 * any agents and with any identifiers, in any order and with repetitions: one
 * first-in-first-out queue per identifier, merged in arrival order.
 */
module DeviceManagerFifo {
  import opened Prelude
  import opened DeviceModel

  /** The list after a sequence of presence changes. */
  function ListAfter(id: Ref -> nat, notices: seq<Notice>): seq<Ref> {
    if notices == [] then []
    else
      var n := |notices| - 1;
      Presence(id, ListAfter(id, notices[..n]), notices[n])
  }

  /** The queue of one identifier: an arrival goes in at the back, a departure
      takes out the front, if there is one. Items are positions in `notices`. */
  function FifoOf(id: Ref -> nat, d: nat, notices: seq<Notice>): (r: seq<nat>)
    ensures forall i :: 0 <= i < |r| ==> r[i] < |notices|
  {
    if notices == [] then []
    else
      var n := |notices| - 1;
      var queue := FifoOf(id, d, notices[..n]);
      if id(notices[n].device) != d then queue
      else if notices[n].Arrived? then queue + [n]
      else if queue == [] then []
      else queue[1..]
  }

  /** The notices at these positions are of these devices. */
  ghost predicate Names(notices: seq<Notice>, at: seq<nat>, devices: seq<Ref>) {
    && |at| == |devices|
    && forall i :: 0 <= i < |at| ==> at[i] < |notices| && notices[at[i]] == Arrived(devices[i])
  }

  function IdAt(id: Ref -> nat, notices: seq<Notice>, d: nat): nat -> bool {
    (k: nat) => k < |notices| && id(notices[k].device) == d
  }

  /** The first of the positions whose notice has the identifier, left out. */
  function DropFirst(id: Ref -> nat, notices: seq<Notice>, at: seq<nat>, d: nat): (r: seq<nat>)
    ensures forall k :: k in r ==> k in at
  {
    if at == [] then []
    else if IdAt(id, notices, d)(at[0]) then at[1..]
    else [at[0]] + DropFirst(id, notices, at[1..], d)
  }

  lemma {:induction false} DropFirstFilters(id: Ref -> nat, notices: seq<Notice>, at: seq<nat>, d: nat, e: nat)
    ensures var all := Filter(IdAt(id, notices, e), at);
      Filter(IdAt(id, notices, e), DropFirst(id, notices, at, d))
      == if d == e && all != [] then all[1..] else all
  {
    if at != [] {
      DropFirstFilters(id, notices, at[1..], d, e);
    }
  }

  lemma {:induction false} DropFirstNames(id: Ref -> nat, notices: seq<Notice>, at: seq<nat>, devices: seq<Ref>, r: Ref)
    requires Names(notices, at, devices)
    ensures Names(notices, DropFirst(id, notices, at, id(r)), RemoveById(id, devices, r))
  {
    if at != [] {
      assert notices[at[0]] == Arrived(devices[0]);
      assert Names(notices, at[1..], devices[1..]);
      DropFirstNames(id, notices, at[1..], devices[1..], r);
    }
  }

  lemma {:induction false} DropFirstIncreases(id: Ref -> nat, notices: seq<Notice>, at: seq<nat>, d: nat)
    requires Increasing(at)
    ensures Increasing(DropFirst(id, notices, at, d))
  {
    if at != [] {
      assert Increasing(at[1..]);
      DropFirstIncreases(id, notices, at[1..], d);
      var rest := DropFirst(id, notices, at[1..], d);
      forall k | 0 <= k < |rest|
        ensures at[0] < rest[k]
      {
        assert rest[k] in at[1..];
      }
    }
  }

  lemma MorePositions(id: Ref -> nat, notices: seq<Notice>, more: seq<Notice>, at: seq<nat>, d: nat)
    requires forall k :: k in at ==> k < |notices|
    ensures Filter(IdAt(id, notices + more, d), at) == Filter(IdAt(id, notices, d), at)
  {
    FilterSame(IdAt(id, notices + more, d), IdAt(id, notices, d), at);
  }

  /** The positions, in `notices`, of the arrivals still in the list. */
  function Survivors(id: Ref -> nat, notices: seq<Notice>): (r: seq<nat>)
    ensures forall k :: k in r ==> k < |notices|
  {
    if notices == [] then []
    else
      var n := |notices| - 1;
      var at := Survivors(id, notices[..n]);
      match notices[n]
      case Arrived(_) => at + [n]
      case Departed(r) => DropFirst(id, notices[..n], at, id(r))
  }

  lemma {:induction false} SurvivorsAreListed(id: Ref -> nat, notices: seq<Notice>)
    ensures Names(notices, Survivors(id, notices), ListAfter(id, notices))
    ensures Increasing(Survivors(id, notices))
  {
    if notices != [] {
      var n := |notices| - 1;
      var front := notices[..n];
      SurvivorsAreListed(id, front);
      if notices[n].Departed? {
        var r := notices[n].device;
        DropFirstNames(id, front, Survivors(id, front), ListAfter(id, front), r);
        DropFirstIncreases(id, front, Survivors(id, front), id(r));
      }
    }
  }

  lemma {:induction false} SurvivorsAreQueued(id: Ref -> nat, notices: seq<Notice>, d: nat)
    ensures Filter(IdAt(id, notices, d), Survivors(id, notices)) == FifoOf(id, d, notices)
  {
    if notices != [] {
      var n := |notices| - 1;
      var front := notices[..n];
      var at := Survivors(id, front);
      assert notices == front + [notices[n]];
      SurvivorsAreQueued(id, front, d);
      match notices[n] {
        case Arrived(r) =>
          MorePositions(id, front, [notices[n]], at, d);
          var last: seq<nat> := [n];
          FilterConcat(IdAt(id, notices, d), at, last);
        case Departed(r) =>
          DropFirstFilters(id, front, at, id(r), d);
          MorePositions(id, front, [notices[n]], DropFirst(id, front, at, id(r)), d);
      }
    }
  }

  /** After any sequence of presence changes: the list is a subsequence of the
      arrivals, in arrival order; restricted to an identifier it is exactly that
      identifier's queue; so the default device, its first, is the oldest
      arrival of all that are left. */
  lemma ListIsMergedFifos(id: Ref -> nat, notices: seq<Notice>, d: nat)
    ensures var at := Survivors(id, notices);
      && Names(notices, at, ListAfter(id, notices))
      && Increasing(at)
      && Filter(IdAt(id, notices, d), at) == FifoOf(id, d, notices)
  {
    SurvivorsAreListed(id, notices);
    SurvivorsAreQueued(id, notices, d);
  }

  /** These two facts determine the list: positions in increasing order with the
      same queue for every identifier are the survivors. */
  lemma MergeIsUnique(id: Ref -> nat, notices: seq<Notice>, at: seq<nat>)
    requires Increasing(at) && forall k :: k in at ==> k < |notices|
    requires forall d: nat :: Filter(IdAt(id, notices, d), at) == FifoOf(id, d, notices)
    ensures at == Survivors(id, notices)
  {
    var s := Survivors(id, notices);
    ListIsMergedFifos(id, notices, 0);
    forall k
      ensures k in at <==> k in s
    {
      if 0 <= k < |notices| {
        var d := id(notices[k].device);
        ListIsMergedFifos(id, notices, d);
        assert IdAt(id, notices, d)(k);
        assert k in at <==> k in Filter(IdAt(id, notices, d), at);
        assert k in s <==> k in Filter(IdAt(id, notices, d), s);
      }
    }
    SameElements(at, s);
  }

  /** What a move brings to the manager's list, as presence changes: a delivery
      is the notice it delivers, and a device added after a probe an arrival. */
  function BroughtBy(m: Move): seq<Notice> {
    match m
    case Deliver(notice) => [notice]
    case AddProbed(r) => [Arrived(r)]
    case _ => []
  }

  function Brought(moves: seq<Move>): seq<Notice> {
    if moves == [] then [] else Brought(moves[..|moves| - 1]) + BroughtBy(moves[|moves| - 1])
  }

  lemma ListAfterOneMore(id: Ref -> nat, notices: seq<Notice>, notice: Notice)
    ensures ListAfter(id, notices + [notice]) == Presence(id, ListAfter(id, notices), notice)
  {
    assert (notices + [notice])[..|notices|] == notices;
  }

  lemma {:induction false} ListStep(id: Ref -> nat, s: Sys, m: Move, notices: seq<Notice>)
    requires Possible(s, m) && m != DestroyManager && s.managerAlive && s.devices == ListAfter(id, notices)
    ensures Make(id, s, m).managerAlive && Make(id, s, m).devices == ListAfter(id, notices + BroughtBy(m))
  {
    if m.Deliver? {
      ListAfterOneMore(id, notices, m.notice);
    } else if m.AddProbed? {
      ListAfterOneMore(id, notices, Arrived(m.device));
    } else {
      assert notices + [] == notices;
    }
  }

  lemma {:induction false} NoListStep(id: Ref -> nat, s: Sys, m: Move)
    requires Possible(s, m) && (m == DestroyManager || (!s.managerAlive && s.devices == []))
    ensures !Make(id, s, m).managerAlive && Make(id, s, m).devices == []
  {
  }

  /** Over every run: while the manager lives its list is what the deliveries and
      the probes' additions make of it, so the theorems about such lists hold of
      it; once it is destroyed the list is empty, whatever is still delivered. */
  lemma {:induction false} ListOverRuns(id: Ref -> nat, moves: seq<Move>)
    requires ValidMoves(id, InitSys(), moves)
    ensures var s := MakeAll(id, InitSys(), moves);
      && (s.managerAlive <==> DestroyManager !in moves)
      && s.devices == if DestroyManager in moves then [] else ListAfter(id, Brought(moves))
    decreases |moves|
  {
    if moves != [] {
      var n := |moves| - 1;
      LastMove(id, InitSys(), moves);
      var front := MakeAll(id, InitSys(), moves[..n]);
      ListOverRuns(id, moves[..n]);
      assert DestroyManager in moves <==> DestroyManager in moves[..n] || moves[n] == DestroyManager by {
        assert moves == moves[..n] + [moves[n]];
      }
      if DestroyManager in moves {
        NoListStep(id, front, moves[n]);
      } else {
        ListStep(id, front, moves[n], Brought(moves[..n]));
      }
    }
  }
}

/** The manager's own methods. */
module DeviceManagerCode {
  import opened Prelude
  import opened DeviceModel
  import opened DeviceManagerFifo

  class NearObjectDeviceController {
    const deviceId: nat
    // The number that identifies this controller in the model.
    ghost const ref: Ref

    constructor (deviceId: nat, ghost ref: Ref)
      ensures this.deviceId == deviceId && this.ref == ref
    {
      this.deviceId := deviceId;
      this.ref := ref;
    }
  }

  ghost function Refs(devices: seq<NearObjectDeviceController>): (r: seq<Ref>)
    ensures |r| == |devices|
    ensures forall i :: 0 <= i < |r| ==> r[i] == devices[i].ref
  {
    seq(|devices|, i requires 0 <= i < |devices| => devices[i].ref)
  }

  datatype NearObjectDevicePresence = ArrivedPresence | DepartedPresence | OtherPresence

  /** The first device with an equal identifier; their number if none has. */
  function FirstEqual(devices: seq<NearObjectDeviceController>, device: NearObjectDeviceController): (i: nat)
    ensures i <= |devices|
    ensures i < |devices| ==> devices[i].deviceId == device.deviceId
    ensures forall k :: 0 <= k < i ==> devices[k].deviceId != device.deviceId
  {
    if devices == [] || devices[0].deviceId == device.deviceId then 0 else 1 + FirstEqual(devices[1..], device)
  }

  lemma {:induction false} RemovedAt(id: Ref -> nat, refs: seq<Ref>, r: Ref, i: nat)
    requires i <= |refs| && forall k :: 0 <= k < i ==> id(refs[k]) != id(r)
    requires i < |refs| ==> id(refs[i]) == id(r)
    ensures RemoveById(id, refs, r) == if i == |refs| then refs else refs[..i] + refs[i + 1..]
  {
    if refs != [] && 0 < i {
      RemovedAt(id, refs[1..], r, i - 1);
      assert refs == [refs[0]] + refs[1..];
      if i < |refs| {
        assert refs[..i] == [refs[0]] + refs[1..][..i - 1];
      }
    }
  }

  function Erased(devices: seq<NearObjectDeviceController>, i: nat): seq<NearObjectDeviceController>
    requires i <= |devices|
  {
    if i == |devices| then devices else devices[..i] + devices[i + 1..]
  }

  /** Erasing the first equal device is removing by identifier. */
  lemma ErasingIsRemoving(id: Ref -> nat, devices: seq<NearObjectDeviceController>, device: NearObjectDeviceController)
    requires forall d :: d in devices ==> d.deviceId == id(d.ref)
    requires device.deviceId == id(device.ref)
    ensures RemoveById(id, Refs(devices), device.ref) == Refs(Erased(devices, FirstEqual(devices, device)))
  {
    var i := FirstEqual(devices, device);
    assert forall k :: 0 <= k < |devices| ==> devices[k] in devices;
    RemovedAt(id, Refs(devices), device.ref, i);
    assert Refs(Erased(devices, i)) == if i == |devices| then Refs(devices)
                                       else Refs(devices)[..i] + Refs(devices)[i + 1..];
  }

  class NearObjectDeviceControllerManager {
    var devices: seq<NearObjectDeviceController>
    // Identifiers of the model's controllers, and the presence changes so far.
    ghost const id: Ref -> nat
    ghost var notices: seq<Notice>

    ghost predicate Valid()
      reads this
    {
      && (forall d :: d in devices ==> d.deviceId == id(d.ref))
      && Refs(devices) == ListAfter(id, notices)
    }

    constructor (ghost id: Ref -> nat)
      ensures Valid() && devices == [] && notices == [] && this.id == id
    {
      devices := [];
      notices := [];
      this.id := id;
    }

    /** No device is taken to be a duplicate of another. */
    predicate IsDuplicate(existing: NearObjectDeviceController, added: NearObjectDeviceController) {
      false
    }

    method AddDevice(nearObjectDevice: NearObjectDeviceController)
      requires Valid() && nearObjectDevice.deviceId == id(nearObjectDevice.ref)
      modifies this
      ensures Valid() && notices == old(notices) + [Arrived(nearObjectDevice.ref)]
      ensures devices == old(devices) + [nearObjectDevice]
    {
      notices := notices + [Arrived(nearObjectDevice.ref)];
      assert notices[..|notices| - 1] == old(notices);
      var nearObjectDeviceExists := exists d :: d in devices && IsDuplicate(d, nearObjectDevice);
      if nearObjectDeviceExists {
        return;
      }
      devices := devices + [nearObjectDevice];
    }

    /** Removes the first device with an equal identifier, if there is one. */
    method RemoveDevice(nearObjectDevice: NearObjectDeviceController)
      requires Valid() && nearObjectDevice.deviceId == id(nearObjectDevice.ref)
      modifies this
      ensures Valid() && notices == old(notices) + [Departed(nearObjectDevice.ref)]
      ensures devices == Erased(old(devices), FirstEqual(old(devices), nearObjectDevice))
    {
      notices := notices + [Departed(nearObjectDevice.ref)];
      assert notices[..|notices| - 1] == old(notices);
      var i := FirstEqual(devices, nearObjectDevice);
      ErasingIsRemoving(id, devices, nearObjectDevice);
      if i == |devices| {
        return;
      }
      devices := devices[..i] + devices[i + 1..];
    }

    method OnDevicePresenceChanged(presence: NearObjectDevicePresence, deviceChanged: NearObjectDeviceController)
      requires Valid() && deviceChanged.deviceId == id(deviceChanged.ref)
      modifies this
      ensures Valid()
      ensures notices == old(notices) + match presence
                                        case ArrivedPresence => [Arrived(deviceChanged.ref)]
                                        case DepartedPresence => [Departed(deviceChanged.ref)]
                                        case OtherPresence => []
      ensures presence == OtherPresence ==> devices == old(devices)
    {
      match presence {
        case ArrivedPresence => AddDevice(deviceChanged);
        case DepartedPresence => RemoveDevice(deviceChanged);
        case OtherPresence =>
      }
    }

    /** The callback that an agent calls; it holds the manager weakly, and does
        nothing once the manager is gone. */
    static method DiscoveryEventCallback(
        strongThis: NearObjectDeviceControllerManager?, presence: NearObjectDevicePresence,
        deviceChanged: NearObjectDeviceController)
      requires strongThis != null ==>
                 strongThis.Valid() && deviceChanged.deviceId == strongThis.id(deviceChanged.ref)
      modifies if strongThis == null then {} else {strongThis}
      ensures strongThis != null ==>
                && strongThis.Valid()
                && strongThis.notices ==
                   old(strongThis.notices) + match presence
                                             case ArrivedPresence => [Arrived(deviceChanged.ref)]
                                             case DepartedPresence => [Departed(deviceChanged.ref)]
                                             case OtherPresence => []
    {
      if strongThis != null {
        strongThis.OnDevicePresenceChanged(presence, deviceChanged);
      }
    }

    /** Takes on an agent. `existingDevices` is what its probe found, if it had
        started and the probe was ready in time: all of it is added. */
    method AddDiscoveryAgent(existingDevices: Option<seq<NearObjectDeviceController>>)
      requires Valid()
      requires existingDevices.Some? ==> forall d :: d in existingDevices.value ==> d.deviceId == id(d.ref)
      modifies this
      ensures Valid()
      ensures devices == old(devices) + (if existingDevices.Some? then existingDevices.value else [])
    {
      if existingDevices.Some? {
        var found := existingDevices.value;
        for k := 0 to |found|
          invariant Valid() && devices == old(devices) + found[..k]
        {
          AddDevice(found[k]);
        }
      }
    }

    /** The oldest arrival of all that are left, or none. */
    method GetDefaultDevice() returns (device: Option<NearObjectDeviceController>)
      requires Valid()
      ensures device.None? <==> Survivors(id, notices) == []
      ensures device.Some? ==>
                var at := Survivors(id, notices);
                && at != [] && at[0] < |notices| && notices[at[0]] == Arrived(device.value.ref)
                && forall k :: k in at ==> at[0] <= k
    {
      ListIsMergedFifos(id, notices, 0);
      assert |Survivors(id, notices)| == |devices|;
      if |devices| == 0 {
        return None;
      }
      assert devices[0].ref == Refs(devices)[0];
      return Some(devices[0]);
    }
  }
}
