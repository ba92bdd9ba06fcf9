/** Values and sequence functions shared by the models. */
module Prelude {

  datatype Option<+T> = None | Some(value: T)

  datatype Result<+T, +E> = Ok(value: T) | Err(error: E)

  /** The elements of `s` that satisfy `p`, in their order. */
  function Filter<T>(p: T -> bool, s: seq<T>): (r: seq<T>)
    ensures |r| <= |s|
    ensures forall x :: x in r ==> x in s && p(x)
    ensures forall x :: x in s && p(x) ==> x in r
  {
    if s == [] then []
    else if p(s[0]) then [s[0]] + Filter(p, s[1..])
    else Filter(p, s[1..])
  }

  lemma {:induction false} FilterConcat<T>(p: T -> bool, a: seq<T>, b: seq<T>)
    ensures Filter(p, a + b) == Filter(p, a) + Filter(p, b)
  {
    if a == [] {
      assert a + b == b;
    } else {
      assert (a + b)[0] == a[0] && (a + b)[1..] == a[1..] + b;
      FilterConcat(p, a[1..], b);
      var rest := Filter(p, a[1..]);
      assert [a[0]] + (rest + Filter(p, b)) == [a[0]] + rest + Filter(p, b);
    }
  }

  /** Two tests that agree on the elements of `s` select the same elements. */
  lemma {:induction false} FilterSame<T>(p: T -> bool, q: T -> bool, s: seq<T>)
    requires forall x :: x in s ==> p(x) == q(x)
    ensures Filter(p, s) == Filter(q, s)
  {
    if s != [] {
      FilterSame(p, q, s[1..]);
    }
  }

  lemma {:induction false} FilterAll<T>(p: T -> bool, s: seq<T>)
    ensures Filter(p, s) == s <==> (forall x :: x in s ==> p(x))
  {
    if s != [] {
      FilterAll(p, s[1..]);
      if p(s[0]) {
        assert s == [s[0]] + s[1..];
        if Filter(p, s) == s {
          assert Filter(p, s)[1..] == s[1..];
        }
      } else {
        assert s[0] in s;
      }
    }
  }

  lemma {:induction false} FilterNone<T>(p: T -> bool, s: seq<T>)
    requires forall x :: x in s ==> !p(x)
    ensures Filter(p, s) == []
  {
    if s != [] {
      FilterNone(p, s[1..]);
    }
  }

  // ---- selections, without naming the function that computes them ----

  ghost predicate Increasing(at: seq<nat>) {
    forall i, j :: 0 <= i < j < |at| ==> at[i] < at[j]
  }

  lemma {:induction false} SameElements(a: seq<nat>, b: seq<nat>)
    requires Increasing(a) && Increasing(b) && forall k :: k in a <==> k in b
    ensures a == b
  {
    assert a != [] ==> a[0] in a;
    assert b != [] ==> b[0] in b;
    if a != [] && b != [] {
      assert a[0] == b[0];
      forall k
        ensures k in a[1..] <==> k in b[1..]
      {
        assert k in a[1..] <==> k in a && k != a[0];
        assert k in b[1..] <==> k in b && k != b[0];
      }
      SameElements(a[1..], b[1..]);
    }
  }

  /** The places of `s` that satisfy `p`, in order. */
  ghost predicate ArePlaces<T>(p: T -> bool, s: seq<T>, at: seq<nat>) {
    Increasing(at) && forall k: nat :: k in at <==> k < |s| && p(s[k])
  }

  /** `r` is what stands in these places of `s`. */
  ghost predicate StandsAt<T>(s: seq<T>, at: seq<nat>, r: seq<T>) {
    |r| == |at| && forall i :: 0 <= i < |at| ==> at[i] < |s| && r[i] == s[at[i]]
  }

  /** `r` is the elements of `s` that satisfy `p`, each as often as it stands in
      `s`, and in the order of `s`. */
  ghost predicate IsSelection<T>(p: T -> bool, s: seq<T>, r: seq<T>) {
    exists at: seq<nat> :: ArePlaces(p, s, at) && StandsAt(s, at, r)
  }

  lemma OnePlaceMore<T>(p: T -> bool, s: seq<T>, x: T, at: seq<nat>)
    requires ArePlaces(p, s, at)
    ensures ArePlaces(p, s + [x], if p(x) then at + [|s|] else at)
  {
    var all := s + [x];
    forall k: nat
      ensures k in at + [|s|] <==> k in at || k == |s|
      ensures k in at ==> k < |s| && all[k] == s[k]
    {
    }
    assert forall i :: 0 <= i < |at| ==> at[i] in at;
  }

  lemma {:induction false} FilterPlaces<T>(p: T -> bool, s: seq<T>) returns (at: seq<nat>)
    ensures ArePlaces(p, s, at) && StandsAt(s, at, Filter(p, s))
    decreases |s|
  {
    if s == [] {
      at := [];
    } else {
      var n := |s| - 1;
      at := FilterPlaces(p, s[..n]);
      assert s == s[..n] + [s[n]];
      FilterConcat(p, s[..n], [s[n]]);
      OnePlaceMore(p, s[..n], s[n], at);
      if p(s[n]) {
        at := at + [n];
      }
    }
  }

  lemma FilterSelects<T>(p: T -> bool, s: seq<T>)
    ensures IsSelection(p, s, Filter(p, s))
  {
    var at := FilterPlaces(p, s);
  }

  /** There is only one. */
  lemma SelectionIsUnique<T>(p: T -> bool, s: seq<T>, q: seq<T>, r: seq<T>)
    requires IsSelection(p, s, q) && IsSelection(p, s, r)
    ensures q == r
  {
    var a: seq<nat> :| ArePlaces(p, s, a) && StandsAt(s, a, q);
    var b: seq<nat> :| ArePlaces(p, s, b) && StandsAt(s, b, r);
    SameElements(a, b);
  }
}
