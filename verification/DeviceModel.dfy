/**
 * The Windows discovery agent's cache of weakly held controllers and the
 * manager's list of strongly held ones, as a step relation over notifications,
 * probes and clients that copy and drop references.
 */
module DeviceModel {
  import opened DeviceNames

  /** A device interface's symbolic link. */
  datatype Name = Name(text: wstring)

  /** A controller: the r-th one created has reference r. */
  type Ref = nat

  /** The name a controller was created for, and how many removal notifications
      that name had received by then. */
  datatype Birth = Birth(name: Name, epoch: nat)

  /** A presence change on its way from the agent to the manager; it holds its
      controller strongly. */
  datatype Notice = Arrived(device: Ref) | Departed(device: Ref)

  datatype Sys = Sys(
    cache: map<Name, Ref>,
    devices: seq<Ref>,
    managerAlive: bool,
    notices: multiset<Notice>,
    hands: multiset<Ref>,
    births: seq<Birth>,
    removals: map<Name, nat>)

  /** The identifier of every UWB controller, whatever its device. */
  const DEVICE_ID_FALLBACK: nat := 0x1234

  function InitSys(): Sys {
    Sys(map[], [], true, multiset{}, multiset{}, [], map[])
  }

  /** Some strong reference exists: the manager's, a notice's, or a client's or
      a probe's. */
  predicate Live(s: Sys, r: Ref) {
    r in s.devices || Arrived(r) in s.notices || Departed(r) in s.notices || r in s.hands
  }

  function Epoch(s: Sys, name: Name): nat {
    if name in s.removals then s.removals[name] else 0
  }

  /** `AddCachedUwbNearObjectDevice`: the cached controller if it can still be
      promoted, otherwise a new one in its place. */
  function Obtained(s: Sys, name: Name): Ref {
    if name in s.cache && Live(s, s.cache[name]) then s.cache[name] else |s.births|
  }

  function WithCached(s: Sys, name: Name): Sys {
    if name in s.cache && Live(s, s.cache[name]) then s
    else s.(cache := s.cache[name := |s.births|], births := s.births + [Birth(name, Epoch(s, name))])
  }

  /** `RemoveDevice`: the first device with an equal identifier goes. */
  function RemoveById(id: Ref -> nat, devices: seq<Ref>, r: Ref): seq<Ref> {
    if devices == [] then []
    else if id(devices[0]) == id(r) then devices[1..]
    else [devices[0]] + RemoveById(id, devices[1..], r)
  }

  /** `OnDevicePresenceChanged`; adding never finds the device to exist. */
  function Presence(id: Ref -> nat, devices: seq<Ref>, notice: Notice): seq<Ref> {
    match notice
    case Arrived(r) => devices + [r]
    case Departed(r) => RemoveById(id, devices, r)
  }

  datatype Move =
    | ArrivalNotified(name: Name)
    | RemovalNotified(name: Name)
    | Deliver(notice: Notice)
    | ProbeName(name: Name)
    | AddProbed(device: Ref)
    | Copy(device: Ref)
    | Drop(device: Ref)
    | DestroyManager

  predicate Possible(s: Sys, m: Move) {
    match m
    case Deliver(notice) => notice in s.notices
    case AddProbed(r) => r in s.hands && s.managerAlive
    case Copy(r) => Live(s, r)
    case Drop(r) => r in s.hands
    case _ => true
  }

  function Make(id: Ref -> nat, s: Sys, m: Move): Sys
    requires Possible(s, m)
  {
    match m
    case ArrivalNotified(name) =>
      WithCached(s, name).(notices := s.notices + multiset{Arrived(Obtained(s, name))})
    case RemovalNotified(name) =>
      var extracted := name in s.cache && Live(s, s.cache[name]);
      s.(cache := s.cache - {name}, removals := s.removals[name := Epoch(s, name) + 1],
         notices := if extracted then s.notices + multiset{Departed(s.cache[name])} else s.notices)
    case Deliver(notice) =>
      s.(notices := s.notices - multiset{notice},
         devices := if s.managerAlive then Presence(id, s.devices, notice) else s.devices)
    case ProbeName(name) => WithCached(s, name).(hands := s.hands + multiset{Obtained(s, name)})
    case AddProbed(r) => s.(devices := s.devices + [r], hands := s.hands - multiset{r})
    case Copy(r) => s.(hands := s.hands + multiset{r})
    case Drop(r) => s.(hands := s.hands - multiset{r})
    case DestroyManager => s.(managerAlive := false, devices := [])
  }

  predicate ValidMoves(id: Ref -> nat, s: Sys, moves: seq<Move>)
    decreases |moves|
  {
    moves == [] || (Possible(s, moves[0]) && ValidMoves(id, Make(id, s, moves[0]), moves[1..]))
  }

  function MakeAll(id: Ref -> nat, s: Sys, moves: seq<Move>): Sys
    requires ValidMoves(id, s, moves)
    decreases |moves|
  {
    if moves == [] then s else MakeAll(id, Make(id, s, moves[0]), moves[1..])
  }

  lemma OneMove(id: Ref -> nat, s: Sys, m: Move)
    requires Possible(s, m)
    ensures ValidMoves(id, s, [m]) && MakeAll(id, s, [m]) == Make(id, s, m)
  {
    var moves := [m];
    assert moves[1..] == [];
    assert MakeAll(id, s, moves) == MakeAll(id, Make(id, s, m), []);
  }

  lemma {:induction false} OneMoreMove(id: Ref -> nat, s: Sys, moves: seq<Move>, m: Move)
    requires ValidMoves(id, s, moves) && Possible(MakeAll(id, s, moves), m)
    ensures ValidMoves(id, s, moves + [m])
    ensures MakeAll(id, s, moves + [m]) == Make(id, MakeAll(id, s, moves), m)
    decreases |moves|
  {
    if moves == [] {
      assert [] + [m] == [m];
      OneMove(id, s, m);
    } else {
      assert (moves + [m])[0] == moves[0] && (moves + [m])[1..] == moves[1..] + [m];
      OneMoreMove(id, Make(id, s, moves[0]), moves[1..], m);
    }
  }

  lemma {:induction false} LastMove(id: Ref -> nat, s: Sys, moves: seq<Move>)
    requires ValidMoves(id, s, moves) && moves != []
    ensures var n := |moves| - 1;
      && ValidMoves(id, s, moves[..n]) && Possible(MakeAll(id, s, moves[..n]), moves[n])
      && MakeAll(id, s, moves) == Make(id, MakeAll(id, s, moves[..n]), moves[n])
    decreases |moves|
  {
    var n := |moves| - 1;
    if n == 0 {
      assert moves == [moves[0]];
      OneMove(id, s, moves[0]);
    } else {
      LastMove(id, Make(id, s, moves[0]), moves[1..]);
      assert moves[..n][0] == moves[0] && moves[..n][1..] == moves[1..][..n - 1];
    }
  }

  // ---- one live controller per name and epoch ----

  /** The cache knows every live controller of its name's present epoch. */
  ghost predicate CacheInv(s: Sys) {
    && (forall n :: n in s.cache ==> s.cache[n] < |s.births| && s.births[s.cache[n]] == Birth(n, Epoch(s, n)))
    && (forall r: Ref :: Live(s, r) ==> r < |s.births|)
    && (forall r: Ref :: r < |s.births| ==> s.births[r].epoch <= Epoch(s, s.births[r].name))
    && (forall r: Ref :: r < |s.births| && Live(s, r) && s.births[r].epoch == Epoch(s, s.births[r].name) ==>
          s.births[r].name in s.cache && s.cache[s.births[r].name] == r)
  }

  lemma {:induction false} RemoveByIdKeepsOnly(id: Ref -> nat, devices: seq<Ref>, r: Ref)
    ensures forall x :: x in RemoveById(id, devices, r) ==> x in devices
  {
    if devices != [] {
      RemoveByIdKeepsOnly(id, devices[1..], r);
    }
  }

  /** Nothing but the holders changes from `s` to `t`, and no dead controller is
      revived but one in the cache. */
  ghost predicate OnlyHoldersChange(s: Sys, t: Sys) {
    && t.cache == s.cache && t.births == s.births && t.removals == s.removals
    && forall r: Ref :: Live(t, r) ==> Live(s, r) || exists n :: n in s.cache && s.cache[n] == r
  }

  lemma HoldersMayChange(s: Sys, t: Sys)
    requires CacheInv(s) && OnlyHoldersChange(s, t)
    ensures CacheInv(t)
  {
    forall r: Ref | Live(t, r)
      ensures r < |s.births|
      ensures s.births[r].epoch == Epoch(s, s.births[r].name) ==>
                s.births[r].name in s.cache && s.cache[s.births[r].name] == r
    {
      if !Live(s, r) {
        var n :| n in s.cache && s.cache[n] == r;
      }
    }
    assert forall n :: n in s.cache ==> s.births[s.cache[n]] == Birth(n, Epoch(s, n));
  }

  lemma HoldingTheCached(s: Sys, t: Sys, name: Name)
    requires name in s.cache
    requires t == s.(notices := s.notices + multiset{Arrived(s.cache[name])})
             || t == s.(notices := s.notices + multiset{Departed(s.cache[name])})
             || t == s.(hands := s.hands + multiset{s.cache[name]})
    ensures OnlyHoldersChange(s, t)
  {
    forall r: Ref | Live(t, r) && !Live(s, r)
      ensures name in s.cache && s.cache[name] == r
    {
    }
  }

  lemma {:induction false} PassingOn(id: Ref -> nat, s: Sys, m: Move)
    requires Possible(s, m)
    requires m.Deliver? || m.AddProbed? || m.Copy? || m.Drop? || m.DestroyManager?
    ensures OnlyHoldersChange(s, Make(id, s, m))
  {
    if m.Deliver? && m.notice.Departed? {
      RemoveByIdKeepsOnly(id, s.devices, m.notice.device);
    }
    forall r: Ref | Live(Make(id, s, m), r)
      ensures Live(s, r)
    {
    }
  }

  /** A controller is created only when no controller of the name's epoch lives. */
  lemma CreatingKeepsCache(s: Sys, name: Name)
    requires CacheInv(s) && !(name in s.cache && Live(s, s.cache[name]))
    ensures CacheInv(WithCached(s, name))
  {
    var t := WithCached(s, name);
    assert forall n :: Epoch(t, n) == Epoch(s, n);
    forall r: Ref | r < |s.births|
      ensures t.births[r] == s.births[r]
    {
    }
    forall r: Ref | Live(t, r)
      ensures r < |s.births|
      ensures s.births[r].epoch == Epoch(s, s.births[r].name) ==>
                s.births[r].name in t.cache && t.cache[s.births[r].name] == r
    {
      assert Live(s, r);
    }
  }

  lemma {:induction false} CachingKeepsCache(s: Sys, name: Name)
    requires CacheInv(s)
    ensures var s' := WithCached(s, name);
      CacheInv(s') && name in s'.cache && s'.cache[name] == Obtained(s, name)
  {
    if !(name in s.cache && Live(s, s.cache[name])) {
      CreatingKeepsCache(s, name);
    }
  }

  lemma {:induction false} RemovalKeepsCache(s: Sys, name: Name)
    requires CacheInv(s)
    ensures CacheInv(s.(cache := s.cache - {name}, removals := s.removals[name := Epoch(s, name) + 1]))
  {
    var s' := s.(cache := s.cache - {name}, removals := s.removals[name := Epoch(s, name) + 1]);
    forall r: Ref | Live(s', r)
      ensures Live(s, r)
    {
    }
    assert forall r: Ref :: r < |s.births| && s.births[r].name == name ==> s.births[r].epoch < Epoch(s', name);
    assert forall n :: n != name ==> Epoch(s', n) == Epoch(s, n);
  }

  lemma ExtractionKeepsCache(id: Ref -> nat, s: Sys, name: Name)
    requires CacheInv(s)
    ensures CacheInv(Make(id, s, RemovalNotified(name)))
  {
    var told := s.(notices := Make(id, s, RemovalNotified(name)).notices);
    if name in s.cache && Live(s, s.cache[name]) {
      HoldingTheCached(s, told, name);
      HoldersMayChange(s, told);
    } else {
      assert told == s;
    }
    RemovalKeepsCache(told, name);
  }

  lemma {:induction false} MoveKeepsCache(id: Ref -> nat, s: Sys, m: Move)
    requires CacheInv(s) && Possible(s, m)
    ensures CacheInv(Make(id, s, m))
  {
    var t := Make(id, s, m);
    match m
    case ArrivalNotified(name) =>
      CachingKeepsCache(s, name);
      HoldingTheCached(WithCached(s, name), t, name);
      HoldersMayChange(WithCached(s, name), t);
    case ProbeName(name) =>
      CachingKeepsCache(s, name);
      HoldingTheCached(WithCached(s, name), t, name);
      HoldersMayChange(WithCached(s, name), t);
    case RemovalNotified(name) =>
      ExtractionKeepsCache(id, s, name);
    case _ =>
      PassingOn(id, s, m);
      HoldersMayChange(s, t);
  }

  lemma {:induction false} MovesKeepCache(id: Ref -> nat, s: Sys, moves: seq<Move>)
    requires CacheInv(s) && ValidMoves(id, s, moves)
    ensures CacheInv(MakeAll(id, s, moves))
    decreases |moves|
  {
    if moves != [] {
      MoveKeepsCache(id, s, moves[0]);
      MovesKeepCache(id, Make(id, s, moves[0]), moves[1..]);
    }
  }

  /** Over every run, with any identifiers: of the controllers created for a
      name since its last removal notification at most one is live, and it is
      the one the cache holds for the name; and no two names share one. */
  lemma OneLiveControllerPerEpoch(id: Ref -> nat, moves: seq<Move>, a: Ref, b: Ref)
    requires ValidMoves(id, InitSys(), moves)
    ensures var s := MakeAll(id, InitSys(), moves);
      && (Live(s, a) ==> a < |s.births|) && (Live(s, b) ==> b < |s.births|)
      && (Live(s, a) && s.births[a].epoch == Epoch(s, s.births[a].name) ==>
            s.births[a].name in s.cache && s.cache[s.births[a].name] == a)
      && (Live(s, a) && Live(s, b) && s.births[a] == s.births[b]
            && s.births[a].epoch == Epoch(s, s.births[a].name)
          ==> a == b)
    ensures var s := MakeAll(id, InitSys(), moves);
      forall m, n :: m in s.cache && n in s.cache && s.cache[m] == s.cache[n] ==> m == n
  {
    MovesKeepCache(id, InitSys(), moves);
  }

  lemma {:induction false} MoveKeepsBirths(id: Ref -> nat, s: Sys, m: Move)
    requires Possible(s, m)
    ensures s.births <= Make(id, s, m).births
  {
  }

  lemma {:induction false} MovesKeepBirths(id: Ref -> nat, s: Sys, moves: seq<Move>)
    requires ValidMoves(id, s, moves)
    ensures s.births <= MakeAll(id, s, moves).births
    decreases |moves|
  {
    if moves != [] {
      MoveKeepsBirths(id, s, moves[0]);
      MovesKeepBirths(id, Make(id, s, moves[0]), moves[1..]);
    }
  }

  /** A controller is obtained for a name, by an arrival or a probe; then any
      notifications, deliveries, probes and clients act; then one is obtained for
      a name again. It is the same controller if and only if the name is the
      same, somebody has kept the controller alive, and the name has had no
      removal notification in between. */
  lemma ObtainedAgainIff(id: Ref -> nat, s: Sys, m: Move, moves: seq<Move>, again: Name)
    requires CacheInv(s) && (m.ArrivalNotified? || m.ProbeName?) && ValidMoves(id, Make(id, s, m), moves)
    ensures var t, r := MakeAll(id, Make(id, s, m), moves), Obtained(s, m.name);
      Obtained(t, again) == r <==> again == m.name && Live(t, r) && Epoch(t, m.name) == Epoch(s, m.name)
  {
    var s1, r := Make(id, s, m), Obtained(s, m.name);
    var t := MakeAll(id, s1, moves);
    CachingKeepsCache(s, m.name);
    MoveKeepsCache(id, s, m);
    MovesKeepCache(id, s1, moves);
    MovesKeepBirths(id, s1, moves);
    assert s1.births[r] == Birth(m.name, Epoch(s, m.name)) == t.births[r];
  }
}
