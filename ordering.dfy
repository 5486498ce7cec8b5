/** Python's `sorted(list(set(xs)))` on a list of reals: drop exact
    duplicates, then sort ascending. */
module Ordering {

  predicate StrictlyAscending(s: seq<real>) {
    forall i, j :: 0 <= i < j < |s| ==> s[i] < s[j]
  }

  /** Places x into an ascending duplicate-free list, unless it is already there. */
  function Insert(x: real, s: seq<real>): (r: seq<real>)
    requires StrictlyAscending(s)
    ensures StrictlyAscending(r)
    ensures forall y :: y in r <==> y == x || y in s
    ensures |r| <= |s| + 1
  {
    if s == [] then [x]
    else if x < s[0] then
      HeadLeast(s);
      AscendingCons(x, s);
      [x] + s
    else if x == s[0] then s
    else
      TailMembers(s);
      var tail := Insert(x, s[1..]);
      AscendingCons(s[0], tail);
      [s[0]] + tail
  }

  /** Putting an element below every member in front keeps the list ascending. */
  lemma AscendingCons(a: real, s: seq<real>)
    requires StrictlyAscending(s)
    requires forall y :: y in s ==> a < y
    ensures StrictlyAscending([a] + s)
    ensures forall y :: y in [a] + s <==> y == a || y in s
  {
    var r := [a] + s;
    forall i, j | 0 <= i < j < |r|
      ensures r[i] < r[j]
    {
      assert r[j] == s[j - 1];
      if i > 0 {
        assert r[i] == s[i - 1];
      } else {
        assert s[j - 1] in s;
      }
    }
  }

  /** `sorted(list(set(s)))`: the same elements, each once, in ascending order. */
  function SortedSet(s: seq<real>): (r: seq<real>)
    ensures StrictlyAscending(r)
    ensures forall y :: y in r <==> y in s
    ensures |r| <= |s|
  {
    if s == [] then []
    else
      var r := Insert(s[|s| - 1], SortedSet(s[..|s| - 1]));
      assert forall y :: y in s <==> y == s[|s| - 1] || y in s[..|s| - 1] by {
        assert s == s[..|s| - 1] + [s[|s| - 1]];
      }
      r
  }

  lemma HeadLeast(s: seq<real>)
    requires StrictlyAscending(s) && s != []
    ensures forall y :: y in s ==> s[0] <= y
  {
  }

  lemma TailMembers(s: seq<real>)
    requires StrictlyAscending(s) && s != []
    ensures StrictlyAscending(s[1..])
    ensures forall y :: y in s[1..] <==> y in s && y != s[0]
  {
    assert s == [s[0]] + s[1..];
  }

  lemma EmptyTogether(s: seq<real>, t: seq<real>)
    requires forall y :: y in s <==> y in t
    ensures s == [] <==> t == []
  {
    if t != [] {
      var y := t[0];
      assert y in t;
      assert y in s;
    }
    if s != [] {
      var y := s[0];
      assert y in s;
      assert y in t;
    }
  }

  /** A strictly ascending list is determined by its elements, so SortedSet
      gives the one ascending enumeration of a set. */
  lemma {:induction false} AscendingUnique(s: seq<real>, t: seq<real>)
    requires StrictlyAscending(s) && StrictlyAscending(t)
    requires forall y :: y in s <==> y in t
    ensures s == t
  {
    EmptyTogether(s, t);
    if s != [] {
      HeadLeast(s);
      HeadLeast(t);
      assert s[0] in s && t[0] in t;
      assert s[0] == t[0];
      TailMembers(s);
      TailMembers(t);
      AscendingUnique(s[1..], t[1..]);
      assert s == [s[0]] + s[1..];
      assert t == [t[0]] + t[1..];
    }
  }

  /** Running SortedSet twice changes nothing, as Python's sort of an already
      sorted set does. */
  lemma SortedSetIdempotent(s: seq<real>)
    ensures SortedSet(SortedSet(s)) == SortedSet(s)
  {
    AscendingUnique(SortedSet(SortedSet(s)), SortedSet(s));
  }
}
