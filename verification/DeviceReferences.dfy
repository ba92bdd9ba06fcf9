/**
 * The strong references to controllers: which moves make and give up how many,
 * what that keeps alive, and what is left when the manager is gone.
 */
module DeviceReferences {
  import opened DeviceModel

  /** How many strong references there are to a controller. */
  function UseCount(s: Sys, r: Ref): nat {
    multiset(s.devices)[r] + s.notices[Arrived(r)] + s.notices[Departed(r)] + s.hands[r]
  }

  /** The device that a removal by identifier finds. */
  predicate IsFirstEqual(id: Ref -> nat, devices: seq<Ref>, wanted: Ref, r: Ref) {
    exists i :: 0 <= i < |devices| && devices[i] == r && id(r) == id(wanted)
                && forall k :: 0 <= k < i ==> id(devices[k]) != id(wanted)
  }

  /** The references to a controller that a move makes, and those it gives up. */
  function Acquired(s: Sys, m: Move, r: Ref): nat
    requires Possible(s, m)
  {
    match m
    case ArrivalNotified(name) => if Obtained(s, name) == r then 1 else 0
    case ProbeName(name) => if Obtained(s, name) == r then 1 else 0
    case RemovalNotified(name) => if name in s.cache && s.cache[name] == r && UseCount(s, r) > 0 then 1 else 0
    case Deliver(notice) => if notice == Arrived(r) && s.managerAlive then 1 else 0
    case AddProbed(x) => if x == r then 1 else 0
    case Copy(x) => if x == r then 1 else 0
    case _ => 0
  }

  ghost function Released(id: Ref -> nat, s: Sys, m: Move, r: Ref): nat
    requires Possible(s, m)
  {
    match m
    case Deliver(notice) =>
      (if notice.device == r then 1 else 0)
      + (if notice.Departed? && s.managerAlive && IsFirstEqual(id, s.devices, notice.device, r) then 1 else 0)
    case AddProbed(x) => if x == r then 1 else 0
    case Drop(x) => if x == r then 1 else 0
    case DestroyManager => multiset(s.devices)[r]
    case _ => 0
  }

  lemma LiveIffUsed(s: Sys, r: Ref)
    ensures Live(s, r) <==> UseCount(s, r) > 0
  {
  }

  lemma FirstEqualInRest(id: Ref -> nat, devices: seq<Ref>, wanted: Ref, r: Ref)
    requires devices != [] && id(devices[0]) != id(wanted)
    ensures IsFirstEqual(id, devices, wanted, r) <==> IsFirstEqual(id, devices[1..], wanted, r)
  {
    var rest := devices[1..];
    if IsFirstEqual(id, devices, wanted, r) {
      var i :| 0 <= i < |devices| && devices[i] == r && id(r) == id(wanted)
               && forall k :: 0 <= k < i ==> id(devices[k]) != id(wanted);
      assert rest[i - 1] == r && forall k :: 0 <= k < i - 1 ==> id(rest[k]) != id(wanted);
    }
    if IsFirstEqual(id, rest, wanted, r) {
      var i :| 0 <= i < |rest| && rest[i] == r && id(r) == id(wanted)
               && forall k :: 0 <= k < i ==> id(rest[k]) != id(wanted);
      assert devices[i + 1] == r;
      forall k | 0 <= k < i + 1
        ensures id(devices[k]) != id(wanted)
      {
        assert k > 0 ==> devices[k] == rest[k - 1];
      }
    }
  }

  lemma {:induction false} RemovalReleases(id: Ref -> nat, devices: seq<Ref>, wanted: Ref, r: Ref)
    ensures multiset(devices)[r] ==
            multiset(RemoveById(id, devices, wanted))[r] + (if IsFirstEqual(id, devices, wanted, r) then 1 else 0)
  {
    if devices != [] {
      var rest := devices[1..];
      assert devices == [devices[0]] + rest;
      if id(devices[0]) == id(wanted) {
        assert IsFirstEqual(id, devices, wanted, devices[0]);
      } else {
        RemovalReleases(id, rest, wanted, r);
        FirstEqualInRest(id, devices, wanted, r);
      }
    }
  }

  /** The count is right for this move. */
  ghost predicate IsCounted(id: Ref -> nat, s: Sys, m: Move, r: Ref)
    requires Possible(s, m)
  {
    UseCount(Make(id, s, m), r) + Released(id, s, m, r) == UseCount(s, r) + Acquired(s, m, r)
  }

  lemma NoticeGone(notices: multiset<Notice>, notice: Notice, r: Ref)
    requires notice in notices
    ensures var rest := notices - multiset{notice};
      rest[Arrived(r)] + rest[Departed(r)] + (if notice.device == r then 1 else 0)
      == notices[Arrived(r)] + notices[Departed(r)]
  {
  }

  lemma ListAfterNotice(id: Ref -> nat, devices: seq<Ref>, notice: Notice, r: Ref)
    ensures multiset(Presence(id, devices, notice))[r]
            + (if notice.Departed? && IsFirstEqual(id, devices, notice.device, r) then 1 else 0)
            == multiset(devices)[r] + (if notice == Arrived(r) then 1 else 0)
  {
    if notice.Departed? {
      RemovalReleases(id, devices, notice.device, r);
    } else {
      assert multiset(devices + [notice.device]) == multiset(devices) + multiset{notice.device};
    }
  }

  lemma DeliveryIsCounted(id: Ref -> nat, s: Sys, notice: Notice, r: Ref)
    requires notice in s.notices
    ensures IsCounted(id, s, Deliver(notice), r)
  {
    NoticeGone(s.notices, notice, r);
    if s.managerAlive {
      ListAfterNotice(id, s.devices, notice, r);
    }
  }

  lemma AdditionIsCounted(id: Ref -> nat, s: Sys, x: Ref, r: Ref)
    requires Possible(s, AddProbed(x))
    ensures IsCounted(id, s, AddProbed(x), r)
  {
    assert multiset(s.devices + [x]) == multiset(s.devices) + multiset{x};
  }

  lemma {:induction false} ObtainingIsCounted(id: Ref -> nat, s: Sys, m: Move, r: Ref)
    requires m.ArrivalNotified? || m.ProbeName? || m.RemovalNotified?
    ensures IsCounted(id, s, m, r)
  {
    LiveIffUsed(s, r);
  }

  /** Every move makes and gives up exactly these references, and a controller
      can be promoted exactly while it has one. */
  lemma {:induction false} UsesAreCounted(id: Ref -> nat, s: Sys, m: Move, r: Ref)
    requires Possible(s, m)
    ensures UseCount(Make(id, s, m), r) + Released(id, s, m, r) == UseCount(s, r) + Acquired(s, m, r)
    ensures Live(s, r) <==> UseCount(s, r) > 0
  {
    LiveIffUsed(s, r);
    assert IsCounted(id, s, m, r) by {
      match m
      case Deliver(notice) => DeliveryIsCounted(id, s, notice, r);
      case AddProbed(x) => AdditionIsCounted(id, s, x, r);
      case ArrivalNotified(_) => ObtainingIsCounted(id, s, m, r);
      case ProbeName(_) => ObtainingIsCounted(id, s, m, r);
      case RemovalNotified(_) => ObtainingIsCounted(id, s, m, r);
      case _ =>
    }
  }

  lemma {:induction false} StepKeepsDead(id: Ref -> nat, s: Sys, m: Move, r: Ref)
    requires Possible(s, m) && r < |s.births| && !Live(s, r)
    ensures !Live(Make(id, s, m), r)
  {
    LiveIffUsed(s, r);
    LiveIffUsed(Make(id, s, m), r);
    UsesAreCounted(id, s, m, r);
  }

  /** A controller whose last reference is gone stays gone: no move, not even one
      that finds it in the cache, hands it out again. */
  lemma {:induction false} DeadStaysDead(id: Ref -> nat, s: Sys, moves: seq<Move>, r: Ref)
    requires ValidMoves(id, s, moves) && r < |s.births| && !Live(s, r)
    ensures !Live(MakeAll(id, s, moves), r)
    decreases |moves|
  {
    if moves != [] {
      StepKeepsDead(id, s, moves[0], r);
      MoveKeepsBirths(id, s, moves[0]);
      DeadStaysDead(id, Make(id, s, moves[0]), moves[1..], r);
    }
  }

  /** Borrowing a live controller and giving it back is always possible and
      leaves everything as it was. */
  lemma BorrowAndReturn(id: Ref -> nat, s: Sys, r: Ref)
    requires Live(s, r)
    ensures ValidMoves(id, s, [Copy(r), Drop(r)]) && MakeAll(id, s, [Copy(r), Drop(r)]) == s
  {
    OneMove(id, s, Copy(r));
    OneMoreMove(id, s, [Copy(r)], Drop(r));
    assert [Copy(r)] + [Drop(r)] == [Copy(r), Drop(r)];
    assert s.hands + multiset{r} - multiset{r} == s.hands;
  }

  // ---- after the manager ----

  /** The manager is gone: it holds nothing, and only notices and clients keep
      controllers alive. */
  ghost predicate ManagerGone(s: Sys) {
    && !s.managerAlive && s.devices == []
    && (forall r: Ref :: Live(s, r) <==> Arrived(r) in s.notices || Departed(r) in s.notices || r in s.hands)
  }

  lemma DestroyingTheManager(id: Ref -> nat, s: Sys)
    ensures Possible(s, DestroyManager) && ManagerGone(Make(id, s, DestroyManager))
  {
  }

  /** A manager that is gone stays gone, whatever notices are still delivered to
      its callback: its list stays empty. */
  lemma {:induction false} ManagerStaysGone(id: Ref -> nat, s: Sys, moves: seq<Move>)
    requires ManagerGone(s) && ValidMoves(id, s, moves)
    ensures ManagerGone(MakeAll(id, s, moves))
    decreases |moves|
  {
    if moves != [] {
      ManagerStaysGone(id, Make(id, s, moves[0]), moves[1..]);
    }
  }

  /** Such a delivery: the device that arrives is lost with its notice, and the
      next arrival of its name creates another controller. */
  lemma LateArrivalIsLost(id: Ref -> nat, name: Name)
    ensures var moves := [DestroyManager, ArrivalNotified(name), Deliver(Arrived(0))];
      && ValidMoves(id, InitSys(), moves)
      && var s := MakeAll(id, InitSys(), moves);
      s.devices == [] && !Live(s, 0) && Obtained(s, name) == 1
  {
    var s1 := InitSys().(managerAlive := false);
    OneMove(id, InitSys(), DestroyManager);
    assert Make(id, InitSys(), DestroyManager) == s1;
    OneMoreMove(id, InitSys(), [DestroyManager], ArrivalNotified(name));
    var s2 := s1.(cache := map[name := 0], births := [Birth(name, 0)], notices := multiset{Arrived(0)});
    assert Make(id, s1, ArrivalNotified(name)) == s2;
    var two: seq<Move> := [DestroyManager, ArrivalNotified(name)];
    assert [DestroyManager] + [ArrivalNotified(name)] == two;
    OneMoreMove(id, InitSys(), two, Deliver(Arrived(0)));
    assert two + [Deliver(Arrived(0))] == [DestroyManager, ArrivalNotified(name), Deliver(Arrived(0))];
    assert Make(id, s2, Deliver(Arrived(0))) == s2.(notices := multiset{});
  }
}
