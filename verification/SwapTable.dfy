/** The bounded tables that a removal keeps dense by moving the last entry into the gap. */
module SwapTables {
  import opened Sequences

  /** The place of the first occurrence of x, or the length. */
  function FirstAt(s: seq<nat>, x: nat): (i: nat)
    ensures i <= |s| && x !in s[..i] && (i < |s| ==> s[i] == x)
    ensures i == |s| <==> x !in s
  {
    if s == [] then 0
    else if s[0] == x then 0
    else
      var i := FirstAt(s[1..], x);
      assert s[..i + 1] == [s[0]] + s[1..][..i];
      assert s == [s[0]] + s[1..];
      i + 1
  }

  function SwapRemove(s: seq<nat>, x: nat): seq<nat> {
    var i := FirstAt(s, x);
    if i < |s| then s[i := s[|s| - 1]][..|s| - 1] else s
  }

  lemma Swapped(a: seq<nat>, x: nat, b: seq<nat>, y: nat)
    ensures multiset(a + [y] + b) == multiset(a + [x] + b + [y]) - multiset{x}
  {
  }

  lemma RemoveShape(s: seq<nat>, x: nat, i: nat)
    requires i < |s| - 1
    ensures var a, b := s[..i], s[i + 1..|s| - 1];
      s == a + [s[i]] + b + [s[|s| - 1]] && s[i := s[|s| - 1]][..|s| - 1] == a + [s[|s| - 1]] + b
  {
  }

  /** Removing takes away one occurrence and nothing else. */
  lemma RemovesOne(s: seq<nat>, x: nat)
    ensures multiset(SwapRemove(s, x)) == multiset(s) - multiset{x}
  {
    hide FirstAt;
    var i := FirstAt(s, x);
    var last := |s| - 1;
    if i < last {
      RemoveShape(s, x, i);
      Swapped(s[..i], x, s[i + 1..last], s[last]);
    } else if i == last {
      assert s == s[..last] + [x];
      assert SwapRemove(s, x) == s[..last];
    }
  }

  lemma Membership(s: seq<nat>, y: nat)
    ensures y in s <==> multiset(s)[y] > 0
  {
  }

  lemma {:induction false} DistinctOnce(s: seq<nat>)
    ensures Distinct(s) <==> forall y :: multiset(s)[y] <= 1
  {
    if s != [] {
      var last := |s| - 1;
      DistinctOnce(s[..last]);
      assert s == s[..last] + [s[last]];
      if s[last] in s[..last] {
        assert multiset(s)[s[last]] >= 2;
        var i :| 0 <= i < last && s[i] == s[last];
      } else {
        assert Distinct(s) <==> Distinct(s[..last]);
        forall y ensures multiset(s)[y] == multiset(s[..last])[y] + (if y == s[last] then 1 else 0) {}
      }
    }
  }

  /** After a removal x is gone exactly when it was listed at most once: an entry
    * registered twice would outlive its owner. */
  lemma GoneExactlyIfListedOnce(s: seq<nat>, x: nat)
    ensures x !in SwapRemove(s, x) <==> multiset(s)[x] <= 1
  {
    hide SwapRemove;
    RemovesOne(s, x);
    Membership(SwapRemove(s, x), x);
  }

  /** From a list without repetitions a removal takes x and keeps every other entry, once. */
  lemma RemovesFromDistinct(s: seq<nat>, x: nat)
    requires Distinct(s)
    ensures Distinct(SwapRemove(s, x)) && |SwapRemove(s, x)| <= |s|
    ensures forall y :: y in SwapRemove(s, x) <==> y in s && y != x
  {
    var t := SwapRemove(s, x);
    RemovesOne(s, x);
    DistinctOnce(s);
    DistinctOnce(t);
    forall y ensures y in t <==> y in s && y != x {
      Membership(s, y);
      Membership(t, y);
    }
  }

  lemma FirstIs(s: seq<nat>, x: nat, i: nat)
    requires i < |s| && s[i] == x && x !in s[..i]
    ensures FirstAt(s, x) == i
  {
  }

  class SwapTable {
    const entries: array<nat>
    var count: nat

    ghost predicate Valid()
      reads this
    {
      count <= entries.Length
    }

    ghost function Contents(): seq<nat>
      requires Valid()
      reads this, entries
    {
      entries[..count]
    }

    constructor (capacity: nat)
      ensures Valid() && fresh(entries) && entries.Length == capacity && Contents() == []
    {
      entries := new nat[capacity];
      count := 0;
    }

    /** Room for one more is checked, repetitions are not. */
    method Add(x: nat) returns (room: bool)
      requires Valid()
      modifies this, entries
      ensures Valid()
      ensures room <==> |old(Contents())| < entries.Length
      ensures Contents() == if room then old(Contents()) + [x] else old(Contents())
    {
      room := count < entries.Length;
      if room {
        entries[count] := x;
        count := count + 1;
      }
    }

    /** The first occurrence is overwritten by the last entry, and the table shrinks. */
    method Remove(x: nat)
      requires Valid()
      modifies this, entries
      ensures Valid() && Contents() == SwapRemove(old(Contents()), x)
      ensures x !in old(Contents()) ==> Contents() == old(Contents())
      ensures x in old(Contents()) ==>
        exists i :: 0 <= i < old(count) && old(Contents())[i] == x && x !in old(Contents())[..i]
          && Contents() == old(Contents())[i := old(Contents())[old(count) - 1]][..old(count) - 1]
    {
      ghost var before := Contents();
      var i := 0;
      while i < count
        invariant i <= count == old(count) && Valid() && Contents() == before
        invariant x !in before[..i]
      {
        if entries[i] == x {
          FirstIs(before, x, i);
          entries[i] := entries[count - 1];
          count := count - 1;
          assert Contents() == before[i := before[|before| - 1]][..|before| - 1];
          return;
        }
        assert before[..i + 1] == before[..i] + [before[i]];
        i := i + 1;
      }
      assert before[..i] == before;
    }
  }
}
