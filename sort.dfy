/** The stable sort of the timeline's events. JavaScript's `Array.prototype.sort`
    is stable; it is modelled here as an insertion sort, which is stable too,
    and `StableSortIsUnique` shows that every stable sort under the same
    comparator yields the same sequence. */
module EventSort {
  import opened EventOrder

  /** Every event may precede every later one. */
  predicate Sorted(s: seq<Event>)
  {
    forall i, j :: 0 <= i < j < |s| ==> Precedes(s[i], s[j])
  }

  /** The events of `s` whose date and kind form the key `k`, in their order in `s`. */
  function Only(s: seq<Event>, k: (string, Kind)): seq<Event>
  {
    if s == [] then [] else Only(s[..|s| - 1], k) + Pick(s[|s| - 1], k)
  }

  /** `[e]` when `e` carries the key `k`, and nothing otherwise. */
  function Pick(e: Event, k: (string, Kind)): seq<Event>
  {
    if Key(e) == k then [e] else []
  }

  lemma OnlySnoc(s: seq<Event>, e: Event, k: (string, Kind))
    ensures Only(s + [e], k) == Only(s, k) + Pick(e, k)
  {
    assert (s + [e])[..|s|] == s;
  }

  lemma {:induction false} OnlyMembers(s: seq<Event>, k: (string, Kind), e: Event)
    requires e in Only(s, k)
    ensures e in s && Key(e) == k
    decreases |s|
  {
    var init := s[..|s| - 1];
    if e in Only(init, k) {
      OnlyMembers(init, k, e);
      assert init[..] <= s;
    }
  }

  /** Places `x` after every element of `s` that does not compare greater than it. */
  function Insert(x: Event, s: seq<Event>): (r: seq<Event>)
    ensures |r| == |s| + 1
  {
    if s == [] then [x]
    else if Compare(s[|s| - 1], x) > 0 then
      assert s == s[..|s| - 1] + [s[|s| - 1]];
      Insert(x, s[..|s| - 1]) + [s[|s| - 1]]
    else s + [x]
  }

  /** Insertion sort, taking the elements of `s` from left to right. */
  function Sort(s: seq<Event>): (r: seq<Event>)
    ensures |r| == |s|
  {
    if s == [] then []
    else
      assert s == s[..|s| - 1] + [s[|s| - 1]];
      Insert(s[|s| - 1], Sort(s[..|s| - 1]))
  }

  lemma {:induction false} InsertPermutes(x: Event, s: seq<Event>)
    ensures multiset(Insert(x, s)) == multiset(s) + multiset{x}
    decreases |s|
  {
    if s != [] {
      var init, last := s[..|s| - 1], s[|s| - 1];
      assert s == init + [last];
      if Compare(last, x) > 0 {
        InsertPermutes(x, init);
      }
    }
  }

  /** The sorted output is a permutation of the input. */
  lemma {:induction false} SortPermutes(s: seq<Event>)
    ensures multiset(Sort(s)) == multiset(s)
    decreases |s|
  {
    if s != [] {
      var init, last := s[..|s| - 1], s[|s| - 1];
      assert s == init + [last];
      SortPermutes(init);
      InsertPermutes(last, Sort(init));
    }
  }

  lemma SortedSnoc(s: seq<Event>, x: Event)
    requires Sorted(s)
    requires forall e :: e in s ==> Precedes(e, x)
    ensures Sorted(s + [x])
  {
    forall i, j | 0 <= i < j < |s + [x]|
      ensures Precedes((s + [x])[i], (s + [x])[j])
    {
      if j < |s| {
        assert (s + [x])[i] == s[i] && (s + [x])[j] == s[j];
      } else {
        assert (s + [x])[i] == s[i] && s[i] in s;
      }
    }
  }

  lemma {:induction false} InsertSorted(x: Event, s: seq<Event>)
    requires Sorted(s)
    ensures Sorted(Insert(x, s))
    decreases |s|
  {
    if s == [] {
    } else {
      var init, last := s[..|s| - 1], s[|s| - 1];
      if Compare(last, x) > 0 {
        assert Sorted(init);
        InsertSorted(x, init);
        CompareAntisymmetric(last, x);
        InsertPermutes(x, init);
        forall e | e in Insert(x, init) ensures Precedes(e, last) {
          assert e in multiset(Insert(x, init));
          if e != x {
            assert e in multiset(init);
            var i :| 0 <= i < |init| && init[i] == e;
            assert s[i] == e;
          }
        }
        SortedSnoc(Insert(x, init), last);
      } else {
        forall e | e in s ensures Precedes(e, x) {
          var i :| 0 <= i < |s| && s[i] == e;
          if i < |s| - 1 {
            PrecedesTransitive(e, last, x);
          }
        }
        SortedSnoc(s, x);
      }
    }
  }

  /** The sorted output lists events in comparator order. */
  lemma {:induction false} SortSorted(s: seq<Event>)
    ensures Sorted(Sort(s))
    decreases |s|
  {
    if s != [] {
      SortSorted(s[..|s| - 1]);
      InsertSorted(s[|s| - 1], Sort(s[..|s| - 1]));
    }
  }

  lemma {:induction false} InsertStable(x: Event, s: seq<Event>, k: (string, Kind))
    ensures Only(Insert(x, s), k) == Only(s + [x], k)
    decreases |s|
  {
    if s != [] {
      var init, last := s[..|s| - 1], s[|s| - 1];
      if Compare(last, x) > 0 {
        assert Key(last) != Key(x);
        calc {
          Only(Insert(x, s), k);
          Only(Insert(x, init) + [last], k);
          { OnlySnoc(Insert(x, init), last, k); }
          Only(Insert(x, init), k) + Pick(last, k);
          { InsertStable(x, init, k); OnlySnoc(init, x, k); }
          Only(init, k) + Pick(x, k) + Pick(last, k);
          Only(init, k) + Pick(last, k) + Pick(x, k);
          { OnlySnoc(init, last, k); assert init + [last] == s; }
          Only(s, k) + Pick(x, k);
          { OnlySnoc(s, x, k); }
          Only(s + [x], k);
        }
      }
    }
  }

  /** Stability: for every key, the events carrying it appear in the sorted
      output in the same relative order as in the input. */
  lemma {:induction false} SortStable(s: seq<Event>, k: (string, Kind))
    ensures Only(Sort(s), k) == Only(s, k)
    decreases |s|
  {
    if s != [] {
      var init, last := s[..|s| - 1], s[|s| - 1];
      calc {
        Only(Sort(s), k);
        Only(Insert(last, Sort(init)), k);
        { InsertStable(last, Sort(init), k); }
        Only(Sort(init) + [last], k);
        { OnlySnoc(Sort(init), last, k); SortStable(init, k); }
        Only(init, k) + Pick(last, k);
        { OnlySnoc(init, last, k); assert init + [last] == s; }
        Only(s, k);
      }
    }
  }

  lemma SortedLastIsGreatest(t: seq<Event>, e: Event)
    requires Sorted(t) && e in t
    ensures Precedes(e, t[|t| - 1])
  {
    var i :| 0 <= i < |t| && t[i] == e;
    if i == |t| - 1 {
      assert Compare(e, e) == 0;
    }
  }

  lemma OnlyNonEmpty(s: seq<Event>)
    requires s != []
    ensures Only(s, Key(s[|s| - 1])) != []
  {
  }

  /** Uniqueness: two sorted sequences that agree on the events of every key
      are equal. */
  lemma {:induction false} SortedUnique(t: seq<Event>, u: seq<Event>)
    requires Sorted(t) && Sorted(u)
    requires forall k :: Only(t, k) == Only(u, k)
    ensures t == u
    decreases |t| + |u|
  {
    if t == [] && u == [] {
      return;
    } else if t == [] {
      OnlyNonEmpty(u);
      assert false;
    } else if u == [] {
      OnlyNonEmpty(t);
      assert false;
    }
    var a, b := t[|t| - 1], u[|u| - 1];
    var t', u' := t[..|t| - 1], u[..|u| - 1];
    assert t == t' + [a] && u == u' + [b];
    // b's key occurs in t, so it is not above a's key; symmetrically for a
    OnlyNonEmpty(u);
    var ob := Only(t, Key(b));
    assert ob == Only(u, Key(b));
    var y := ob[|ob| - 1];
    OnlyMembers(t, Key(b), y);
    SortedLastIsGreatest(t, y);
    assert Precedes(b, a);
    OnlyNonEmpty(t);
    var oa := Only(u, Key(a));
    var z := oa[|oa| - 1];
    OnlyMembers(u, Key(a), z);
    SortedLastIsGreatest(u, z);
    assert Precedes(a, b);
    CompareAntisymmetric(a, b);
    forall k ensures Only(t', k) == Only(u', k) {
      OnlySnoc(t', a, k);
      OnlySnoc(u', b, k);
      assert Pick(a, k) == Pick(b, k);
      assert Only(t', k) + Pick(a, k) == Only(u', k) + Pick(b, k);
      assert Only(t', k) == (Only(t', k) + Pick(a, k))[..|Only(t', k)|];
    }
    assert a == b by {
      OnlySnoc(t', a, Key(a));
      OnlySnoc(u', b, Key(a));
    }
    assert Sorted(t') && Sorted(u');
    SortedUnique(t', u');
  }

  /** Any sequence that is sorted and keeps the input's order among events
      of equal key is exactly `Sort(s)`: whichever stable algorithm performs
      the sort, the outcome is the same. */
  lemma StableSortIsUnique(s: seq<Event>, t: seq<Event>)
    requires Sorted(t)
    requires forall k :: Only(t, k) == Only(s, k)
    ensures t == Sort(s)
  {
    SortSorted(s);
    forall k ensures Only(t, k) == Only(Sort(s), k) {
      SortStable(s, k);
    }
    SortedUnique(t, Sort(s));
  }

  /** Sorts `a` in place with the timeline comparator, inserting each
      element into the sorted prefix before it. */
  method SortInPlace(a: array<Event>)
    modifies a
    ensures a[..] == Sort(old(a[..]))
  {
    ghost var input := a[..];
    var i := 0;
    while i < a.Length
      invariant 0 <= i <= a.Length
      invariant a[..i] == Sort(input[..i])
      invariant a[i..] == input[i..]
    {
      InsertInPlace(a, i);
      assert input[..i + 1][..i] == input[..i];
      assert input[..i + 1][i] == input[i];
      i := i + 1;
    }
    assert a[..] == a[..a.Length] && input == input[..a.Length];
  }

  /** Moves `a[i]` left past the elements of `a[..i]` that compare greater than it. */
  method InsertInPlace(a: array<Event>, i: nat)
    requires i < a.Length
    modifies a
    ensures a[..i + 1] == Insert(old(a[i]), old(a[..i]))
    ensures a[i + 1..] == old(a[i + 1..])
  {
    var x := a[i];
    ghost var prefix := a[..i];
    var j := i;
    while j > 0 && Compare(a[j - 1], x) > 0
      invariant 0 <= j <= i
      invariant a[j] == x
      invariant Insert(x, prefix) == Insert(x, a[..j]) + a[j + 1..i + 1]
      invariant a[i + 1..] == old(a[i + 1..])
    {
      ghost var before := a[..];
      a[j - 1], a[j] := a[j], a[j - 1];
      SwapStep(x, before, a[..], j, i);
      j := j - 1;
    }
    InsertStops(x, a[..], j, i);
  }

  /** One step of the inner loop: swapping `x` with a greater left neighbour
      keeps the insertion it is carrying out unchanged. */
  lemma SwapStep(x: Event, before: seq<Event>, after: seq<Event>, j: nat, i: nat)
    requires 0 < j <= i < |before| && before[j] == x
    requires Compare(before[j - 1], x) > 0
    requires after == before[j - 1 := x][j := before[j - 1]]
    ensures after[j - 1] == x && after[i + 1..] == before[i + 1..]
    ensures Insert(x, before[..j]) + before[j + 1..i + 1] == Insert(x, after[..j - 1]) + after[j..i + 1]
  {
    assert before[..j][..j - 1] == before[..j - 1] == after[..j - 1];
    assert after[j..i + 1] == [before[j - 1]] + before[j + 1..i + 1];
  }

  /** When the inner loop stops, inserting `x` leaves the prefix where it is. */
  lemma InsertStops(x: Event, s: seq<Event>, j: nat, i: nat)
    requires j <= i < |s| && s[j] == x
    requires j == 0 || Compare(s[j - 1], x) <= 0
    ensures Insert(x, s[..j]) + s[j + 1..i + 1] == s[..i + 1]
  {
    assert s[..i + 1] == s[..j] + [x] + s[j + 1..i + 1];
  }
}
