/**
 * Near objects, which a session compares by value when it adds them and by
 * pointer when it removes them, and the membership lists made of them.
 */
module NearObjects {
  import opened Prelude

  /** A double: a comparison with NaN, also of NaN itself, is false. */
  datatype Double = NaN | NegativeInfinity | PositiveInfinity | Finite(value: real)

  datatype SpatialProperties = SpatialProperties(
    distance: Option<Double>,
    angleAzimuth: Option<Double>,
    angleElevation: Option<Double>,
    elevation: Option<Double>)

  /** A near object's identity is its reference. Its properties are private,
      start out empty, and nothing in the library sets them. */
  class NearObject {
    const spatial: SpatialProperties

    constructor ()
      ensures spatial == SpatialProperties(None, None, None, None)
    {
      spatial := SpatialProperties(None, None, None, None);
    }
  }

  predicate DoubleEq(a: Double, b: Double) {
    !a.NaN? && a == b
  }

  predicate OptionalEq(a: Option<Double>, b: Option<Double>) {
    match (a, b)
    case (None, None) => true
    case (Some(x), Some(y)) => DoubleEq(x, y)
    case _ => false
  }

  /** `operator==` on near objects. */
  predicate ValueEq(a: NearObject, b: NearObject) {
    && OptionalEq(a.spatial.distance, b.spatial.distance)
    && OptionalEq(a.spatial.angleAzimuth, b.spatial.angleAzimuth)
    && OptionalEq(a.spatial.angleElevation, b.spatial.angleElevation)
    && OptionalEq(a.spatial.elevation, b.spatial.elevation)
  }

  predicate HasNaN(a: NearObject) {
    Some(NaN) in {a.spatial.distance, a.spatial.angleAzimuth, a.spatial.angleElevation, a.spatial.elevation}
  }

  predicate SomeEqual(members: seq<NearObject>, x: NearObject) {
    exists m :: m in members && ValueEq(x, m)
  }

  /** The objects of a batch that equal no member by value; duplicates inside
      the batch stay. */
  function Pruned(members: seq<NearObject>, batch: seq<NearObject>): seq<NearObject> {
    Filter(x => !SomeEqual(members, x), batch)
  }

  function WithAdded(members: seq<NearObject>, batch: seq<NearObject>): seq<NearObject> {
    members + Pruned(members, batch)
  }

  /** The members that the list points to, and the others, each in order. */
  function RemovedFrom(members: seq<NearObject>, list: seq<NearObject>): seq<NearObject> {
    Filter(x => x in list, members)
  }

  function Without(members: seq<NearObject>, list: seq<NearObject>): seq<NearObject> {
    Filter(x => x !in list, members)
  }

  /** Value equality is an equivalence away from NaN, and nothing equals an
      object that has a NaN. */
  lemma ValueEqLaws(a: NearObject, b: NearObject, c: NearObject)
    ensures ValueEq(a, a) <==> !HasNaN(a)
    ensures ValueEq(a, b) ==> ValueEq(b, a) && !HasNaN(a) && !HasNaN(b)
    ensures ValueEq(a, b) && ValueEq(b, c) ==> ValueEq(a, c)
  {
    assert HasNaN(a) <==> a.spatial.distance == Some(NaN) || a.spatial.angleAzimuth == Some(NaN)
                          || a.spatial.angleElevation == Some(NaN) || a.spatial.elevation == Some(NaN);
  }

  /** Which is: the same properties, none of them a NaN. */
  lemma ValueEqIff(a: NearObject, b: NearObject)
    ensures ValueEq(a, b) <==> a.spatial == b.spatial && !HasNaN(a)
  {
    assert HasNaN(a) <==> a.spatial.distance == Some(NaN) || a.spatial.angleAzimuth == Some(NaN)
                          || a.spatial.angleElevation == Some(NaN) || a.spatial.elevation == Some(NaN);
  }

  lemma MemberEqualsItself(members: seq<NearObject>, x: NearObject)
    requires x in members && !HasNaN(x)
    ensures SomeEqual(members, x)
  {
    ValueEqLaws(x, x, x);
  }

  /** What an add event reports was not a member before, unless it has a NaN. */
  lemma PrunedIsNew(members: seq<NearObject>, batch: seq<NearObject>, x: NearObject)
    requires x in Pruned(members, batch)
    ensures x in batch && !SomeEqual(members, x)
    ensures x in members ==> HasNaN(x)
  {
    if x in members && !HasNaN(x) {
      MemberEqualsItself(members, x);
    }
  }

  /** What an add takes is the objects of the batch that differ by value from
      every member, as often as the batch names them and in its order. */
  lemma AddTakesTheNew(members: seq<NearObject>, batch: seq<NearObject>)
    ensures IsSelection((x: NearObject) => forall m :: m in members ==> !ValueEq(x, m),
                        batch, Pruned(members, batch))
    ensures forall x :: x in Pruned(members, batch) <==> x in batch && forall m :: m in members ==> !ValueEq(x, m)
    ensures WithAdded(members, batch) == members + Pruned(members, batch)
  {
    var isNew := (x: NearObject) => forall m :: m in members ==> !ValueEq(x, m);
    FilterSame(isNew, (x: NearObject) => !SomeEqual(members, x), batch);
    FilterSelects(isNew, batch);
  }

  /** What a removal takes is the members that the list points to, and what it
      keeps is the other ones, each as often as they are members and in their
      order: members that are only equal by value stay. */
  lemma RemoveTakesThePointedTo(members: seq<NearObject>, list: seq<NearObject>)
    ensures IsSelection((x: NearObject) => x in list, members, RemovedFrom(members, list))
    ensures IsSelection((x: NearObject) => x !in list, members, Without(members, list))
    ensures forall x :: x in RemovedFrom(members, list) <==> x in members && x in list
    ensures forall x :: x in Without(members, list) <==> x in members && x !in list
  {
    FilterSelects((x: NearObject) => x in list, members);
    FilterSelects((x: NearObject) => x !in list, members);
  }

  /** Two objects as built are equal by value, and removing one keeps the other. */
  lemma RemoveIsByPointer(a: NearObject, b: NearObject)
    requires a != b
    ensures Without([a, b], [a]) == [b] && RemovedFrom([a, b], [a]) == [a]
  {
    var members, list := [a, b], [a];
    assert members == [a] + [b];
    FilterConcat((x: NearObject) => x !in list, [a], [b]);
    FilterConcat((x: NearObject) => x in list, [a], [b]);
  }

  /** Removing what a remove event reports is removing the list that was asked
      for: the event may stand for the call. */
  lemma RemovedStandsForList(members: seq<NearObject>, list: seq<NearObject>)
    ensures Without(members, RemovedFrom(members, list)) == Without(members, list)
  {
    FilterSame((x: NearObject) => x !in RemovedFrom(members, list), (x: NearObject) => x !in list, members);
  }

  lemma WithoutNone(members: seq<NearObject>, list: seq<NearObject>)
    requires list == []
    ensures Without(members, list) == members
  {
    FilterAll((x: NearObject) => x !in list, members);
  }

  /** Nothing is lost or made up: the members that stay and the members that are
      removed are together the members, with their multiplicities. */
  lemma {:induction false} RemovePartitions(members: seq<NearObject>, list: seq<NearObject>)
    ensures multiset(Without(members, list)) + multiset(RemovedFrom(members, list)) == multiset(members)
  {
    if members != [] {
      RemovePartitions(members[1..], list);
      assert members == [members[0]] + members[1..];
    }
  }

  /** A fact about the two operators, for any properties a near object might
      have: removing exactly the list that an add reported restores the
      membership, element for element and with duplicates in the batch, if and
      only if the batch names no present member that has a NaN. */
  lemma AddThenUndo(members: seq<NearObject>, batch: seq<NearObject>)
    ensures Without(WithAdded(members, batch), Pruned(members, batch)) == members
            <==> (forall x :: x in batch && x in members ==> !HasNaN(x))
  {
    var added := Pruned(members, batch);
    var stays := (x: NearObject) => x !in added;
    FilterConcat(stays, members, added);
    FilterNone(stays, added);
    assert Without(members + added, added) == Filter(stays, members);
    FilterAll(stays, members);
    if forall x :: x in batch && x in members ==> !HasNaN(x) {
      forall x | x in members
        ensures stays(x)
      {
        if x in added {
          PrunedIsNew(members, batch, x);
        }
      }
    } else {
      var x :| x in batch && x in members && HasNaN(x);
      if SomeEqual(members, x) {
        var m :| m in members && ValueEq(x, m);
        ValueEqLaws(x, m, m);
      }
      assert x in added && !stays(x);
    }
  }

  // ---- as near objects are built ----

  predicate IsAsBuilt(x: NearObject) {
    x.spatial == SpatialProperties(None, None, None, None)
  }

  lemma AsBuiltAreEqual(a: NearObject, b: NearObject)
    requires IsAsBuilt(a) && IsAsBuilt(b)
    ensures ValueEq(a, b) && !HasNaN(a)
  {
    ValueEqLaws(a, b, b);
  }

  /** As near objects are built every two of them are equal by value: adding to
      a session that has a member adds nothing and reports an empty list, only a
      session without members takes the batch, and then all of it. */
  lemma AddAsBuilt(members: seq<NearObject>, batch: seq<NearObject>)
    requires forall x :: x in members + batch ==> IsAsBuilt(x)
    ensures Pruned(members, batch) == if members == [] then batch else []
    ensures WithAdded(members, batch) == if members == [] then batch else members
  {
    var isNew := (x: NearObject) => !SomeEqual(members, x);
    if members == [] {
      FilterAll(isNew, batch);
    } else {
      forall x | x in batch
        ensures SomeEqual(members, x)
      {
        AsBuiltAreEqual(x, members[0]);
        assert members[0] in members;
      }
      FilterNone(isNew, batch);
    }
  }

  /** So removing what an add reported always restores the membership. */
  lemma UndoAsBuilt(members: seq<NearObject>, batch: seq<NearObject>)
    requires forall x :: x in members + batch ==> IsAsBuilt(x)
    ensures Without(WithAdded(members, batch), Pruned(members, batch)) == members
  {
    AddThenUndo(members, batch);
    forall x | x in batch
      ensures !HasNaN(x)
    {
      AsBuiltAreEqual(x, x);
    }
  }

  /** No two members at different places are equal by value. */
  ghost predicate ValueDistinct(members: seq<NearObject>) {
    forall i, j :: 0 <= i < j < |members| ==> !ValueEq(members[i], members[j])
  }

  /** Adding a batch keeps the members pairwise different by value exactly when
      the part of the batch that is added is so itself; adding one object at a
      time always keeps it. */
  lemma AddKeepsDistinctIff(members: seq<NearObject>, batch: seq<NearObject>)
    requires ValueDistinct(members)
    ensures ValueDistinct(WithAdded(members, batch)) <==> ValueDistinct(Pruned(members, batch))
    ensures |batch| <= 1 ==> ValueDistinct(WithAdded(members, batch))
  {
    var added := Pruned(members, batch);
    var all := members + added;
    if ValueDistinct(added) {
      forall i, j | 0 <= i < j < |all|
        ensures !ValueEq(all[i], all[j])
      {
        if i < |members| <= j {
          PrunedIsNew(members, batch, all[j]);
          ValueEqLaws(all[i], all[j], all[j]);
          assert all[i] in members;
        } else if |members| <= i {
          assert all[i] == added[i - |members|] && all[j] == added[j - |members|];
        }
      }
    } else {
      var i, j :| 0 <= i < j < |added| && ValueEq(added[i], added[j]);
      assert all[|members| + i] == added[i] && all[|members| + j] == added[j];
    }
  }
}
