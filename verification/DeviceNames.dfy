/**
 * The list of device interface names that the operating system returns as one
 * buffer: every name followed by a null, and a null after the last one.
 */
module DeviceNames {
  /** A UTF-16 code unit, which is what the buffer holds; it need not be a
      character, since a name may have surrogates. */
  newtype wchar = x: int | 0 <= x < 0x1_0000

  type wstring = seq<wchar>

  const NUL: wchar := 0

  predicate IsName(s: wstring) {
    s != [] && NUL !in s
  }

  /** The buffer's format. */
  function Encode(names: seq<wstring>): seq<wchar> {
    if names == [] then [NUL] else names[0] + [NUL] + Encode(names[1..])
  }

  /** What the caller relies on: an empty string is reached inside the buffer,
      at its start or right after the null of a name. */
  ghost predicate IsTerminated(buffer: seq<wchar>, at: nat) {
    exists k :: at <= k < |buffer| && buffer[k] == NUL && (k == at || buffer[k - 1] == NUL)
  }

  /** `names` are read from the buffer and nothing after their final null is. */
  ghost predicate Holds(buffer: seq<wchar>, names: seq<wstring>) {
    (forall n :: n in names ==> IsName(n)) && Encode(names) <= buffer
  }

  lemma {:induction false} EncodeEnds(names: seq<wstring>)
    ensures Encode(names) != [] && Encode(names)[|Encode(names)| - 1] == NUL
  {
    if names != [] {
      EncodeEnds(names[1..]);
    }
  }

  lemma {:induction false} EncodeAppends(names: seq<wstring>, name: wstring)
    ensures var e := Encode(names);
      e != [] && Encode(names + [name]) == e[..|e| - 1] + name + [NUL] + [NUL]
  {
    EncodeEnds(names);
    if names == [] {
      assert Encode([name]) == name + [NUL] + Encode([name][1..]);
    } else {
      assert (names + [name])[1..] == names[1..] + [name];
      EncodeAppends(names[1..], name);
    }
  }

  /** Copies the null-terminated string at a position. */
  method CopyString(buffer: array<wchar>, at: nat) returns (s: wstring)
    requires exists k :: at <= k < buffer.Length && buffer[k] == NUL
    ensures at + |s| < buffer.Length && buffer[at + |s|] == NUL
    ensures s == buffer[at..at + |s|] && NUL !in s
  {
    s := [];
    while buffer[at + |s|] != NUL
      invariant at + |s| < buffer.Length && s == buffer[at..at + |s|] && NUL !in s
      invariant exists k :: at + |s| <= k < buffer.Length && buffer[k] == NUL
      decreases buffer.Length - |s|
    {
      s := s + [buffer[at + |s|]];
    }
  }

  /** The splitting loop. Every read is inside the buffer; the names found are
      the only list whose encoding the buffer starts with, and `at` is left on
      the final null, the last place read. */
  method Split(buffer: array<wchar>) returns (names: seq<wstring>, at: nat)
    requires IsTerminated(buffer[..], 0)
    ensures Holds(buffer[..], names)
    ensures at + 1 == |Encode(names)|
  {
    names := [];
    at := 0;
    EncodeEnds([]);
    while buffer[at] != NUL
      invariant at + 1 == |Encode(names)| && at < buffer.Length
      invariant buffer[..at] == Encode(names)[..at]
      invariant forall n :: n in names ==> IsName(n)
      invariant IsTerminated(buffer[..], at)
      decreases buffer.Length - at
    {
      var name := CopyString(buffer, at);
      ghost var before := at;
      EncodeAppends(names, name);
      names := names + [name];
      at := at + |name| + 1;
      assert buffer[..at] == buffer[..before] + name + [NUL];
    }
    EncodeEnds(names);
    assert buffer[..at + 1] == Encode(names);
  }

  lemma NulIsOutside(buffer: seq<wchar>, s: wstring, k: nat)
    requires s <= buffer && NUL !in s && k < |buffer| && buffer[k] == NUL
    ensures |s| <= k
  {
    assert forall i :: 0 <= i < |s| ==> s[i] == buffer[i];
    assert forall i :: 0 <= i < |s| ==> s[i] in s;
  }

  lemma NotTerminator(buffer: seq<wchar>, names: seq<wstring>)
    requires names != [] && Holds(buffer, names)
    ensures buffer[0] != NUL
  {
    assert names[0] in names;
    assert Encode(names)[0] == names[0][0] == buffer[0];
  }

  /** A buffer starts with the encoding of at most one list of names, so the
      result of splitting depends on nothing after the final null. */
  lemma {:induction false} SplitIsUnique(buffer: seq<wchar>, a: seq<wstring>, b: seq<wstring>)
    requires Holds(buffer, a) && Holds(buffer, b)
    ensures a == b
  {
    if a == [] && b != [] {
      NotTerminator(buffer, b);
    } else if b == [] && a != [] {
      NotTerminator(buffer, a);
    } else if a != [] {
      var m, n := a[0], b[0];
      assert m in a && n in b;
      assert Encode(a)[|m|] == NUL == buffer[|m|] && Encode(b)[|n|] == NUL == buffer[|n|];
      assert m == Encode(a)[..|m|] == buffer[..|m|] && n == Encode(b)[..|n|] == buffer[..|n|];
      NulIsOutside(buffer, m, |n|);
      NulIsOutside(buffer, n, |m|);
      assert m == n;
      var rest := buffer[|m| + 1..];
      assert Encode(a[1..]) == Encode(a)[|m| + 1..] && Encode(b[1..]) == Encode(b)[|m| + 1..];
      SplitIsUnique(rest, a[1..], b[1..]);
      assert a == [m] + a[1..] && b == [n] + b[1..];
    }
  }

  lemma {:induction false} EncodeEndsTwice(names: seq<wstring>)
    requires names != []
    ensures |Encode(names)| >= 2 && Encode(names)[|Encode(names)| - 2] == NUL
  {
    if |names| == 1 {
      assert Encode(names) == names[0] + [NUL] + [NUL];
    } else {
      EncodeEndsTwice(names[1..]);
    }
  }

  lemma {:induction false} EncodingIsTerminated(buffer: seq<wchar>, names: seq<wstring>)
    requires Encode(names) <= buffer && forall n :: n in names ==> IsName(n)
    ensures IsTerminated(buffer, 0)
  {
    var e := Encode(names);
    EncodeEnds(names);
    assert buffer[|e| - 1] == NUL;
    if names != [] {
      EncodeEnds(names[1..]);
      assert e[|e| - 2] == NUL by {
        EncodeEndsTwice(names);
      }
      assert buffer[|e| - 2] == NUL;
    }
  }

  function FirstNul(s: seq<wchar>): (k: nat)
    ensures k <= |s| && (k < |s| ==> s[k] == NUL) && forall i :: 0 <= i < k ==> s[i] != NUL
  {
    if s == [] || s[0] == NUL then 0 else 1 + FirstNul(s[1..])
  }

  lemma {:induction false} TerminatedHoldsNames(buffer: seq<wchar>) returns (names: seq<wstring>)
    requires IsTerminated(buffer, 0)
    ensures Holds(buffer, names)
    decreases |buffer|
  {
    if buffer[0] == NUL {
      names := [];
    } else {
      var last :| 0 <= last < |buffer| && buffer[last] == NUL && (last == 0 || buffer[last - 1] == NUL);
      var k := FirstNul(buffer);
      var rest := buffer[k + 1..];
      assert k < last;
      assert rest[last - k - 1] == NUL && (last - k - 1 == 0 || rest[last - k - 2] == NUL);
      var others := TerminatedHoldsNames(rest);
      names := [buffer[..k]] + others;
      assert names[1..] == others && Encode(names) == buffer[..k] + [NUL] + Encode(others);
      assert buffer == buffer[..k] + [NUL] + rest;
    }
  }

  /** The loop's precondition is exactly that the buffer starts with the encoding
      of some list of names; and for an encoding followed by anything, whatever
      list the buffer holds, and so the loop's result, is the encoded one. */
  lemma SplitRoundTrip(buffer: seq<wchar>, names: seq<wstring>, rest: seq<wchar>, found: seq<wstring>)
    ensures IsTerminated(buffer, 0) <==> exists list :: Holds(buffer, list)
    ensures (forall n :: n in names ==> IsName(n)) && buffer == Encode(names) + rest ==>
              IsTerminated(buffer, 0) && (Holds(buffer, found) ==> found == names)
  {
    if IsTerminated(buffer, 0) {
      var list := TerminatedHoldsNames(buffer);
    }
    if list :| Holds(buffer, list) {
      EncodingIsTerminated(buffer, list);
    }
    if (forall n :: n in names ==> IsName(n)) && buffer == Encode(names) + rest {
      assert Holds(buffer, names);
      if Holds(buffer, found) {
        SplitIsUnique(buffer, found, names);
      }
    }
  }
}
