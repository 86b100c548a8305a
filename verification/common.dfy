/** Small shared vocabulary: the optional value used wherever the source
    has a nullable field or a lookup that may find nothing. */
module Common {

  /** A value that may be absent (`null` / `undefined` in the source). */
  datatype Option<+T> = None | Some(value: T)

  /** Removes the first occurrence of `x` from `s` (JavaScript's
      `indexOf` followed by `splice(index, 1)`); `s` is returned as is
      when `x` does not occur. */
  function RemoveFirst<T(==)>(s: seq<T>, x: T): (r: seq<T>)
    ensures x in s ==> |r| == |s| - 1 && multiset(r) == multiset(s) - multiset{x}
    ensures x !in s ==> r == s
  {
    if |s| == 0 then s
    else
      assert s == [s[0]] + s[1..];
      if s[0] == x then s[1..] else [s[0]] + RemoveFirst(s[1..], x)
  }

  /** Past a leading element other than `x`, removal keeps that element
      in front of the removal from the rest. */
  lemma RemoveFirstCons<T>(h: T, t: seq<T>, x: T)
    requires h != x
    ensures RemoveFirst([h] + t, x) == [h] + RemoveFirst(t, x)
  {
    assert ([h] + t)[1..] == t;
  }

  /** Removal cuts out the copy at the first position `i` holding `x`,
      and the other elements keep their order. */
  lemma {:induction false} RemoveFirstAt<T>(s: seq<T>, x: T, i: nat)
    requires i < |s| && s[i] == x
    requires forall k :: 0 <= k < i ==> s[k] != x
    ensures RemoveFirst(s, x) == s[..i] + s[i + 1..]
  {
    var tail := s[1..];
    if i == 0 {
      assert s[..i] + s[i + 1..] == tail;
    } else {
      assert s[0] != x;
      RemoveFirstAt(tail, x, i - 1);
      assert s == [s[0]] + tail;
      RemoveFirstCons(s[0], tail, x);
      assert s[..i] == [s[0]] + tail[..i - 1];
      assert s[i + 1..] == tail[i..];
    }
  }

  /** The copy removed is the first one, at the position `i` returned, and
      the remaining elements keep their order. */
  lemma {:induction false} RemoveFirstKeepsOrder<T>(s: seq<T>, x: T) returns (i: nat)
    requires x in s
    ensures i < |s| && s[i] == x && x !in s[..i]
    ensures RemoveFirst(s, x) == s[..i] + s[i + 1..]
  {
    i := 0;
    while s[i] != x
      invariant i < |s| && x !in s[..i]
      decreases |s| - i
    {
      assert s[..i + 1] == s[..i] + [s[i]];
      i := i + 1;
    }
    RemoveFirstAt(s, x, i);
  }

  /** No element occurs twice. */
  predicate NoDup<T(==)>(s: seq<T>) {
    forall i, j :: 0 <= i < j < |s| ==> s[i] != s[j]
  }

  /** Removing the first occurrence from a duplicate-free sequence removes
      the element altogether and keeps the rest duplicate-free. */
  lemma {:induction false} RemoveFirstNoDup<T>(s: seq<T>, x: T)
    requires NoDup(s)
    ensures x !in RemoveFirst(s, x)
    ensures NoDup(RemoveFirst(s, x))
    ensures forall y :: y in s && y != x ==> y in RemoveFirst(s, x)
  {
    if |s| > 0 {
      var tail := s[1..];
      assert NoDup(tail);
      assert s[0] !in tail;
      if s[0] != x {
        RemoveFirstNoDup(tail, x);
        var t := RemoveFirst(tail, x);
        assert s[0] !in t by {
          assert multiset(t) <= multiset(tail);
          assert s[0] !in multiset(tail);
        }
        assert forall y :: y in tail && y != x ==> y in t;
      }
    }
  }
}
