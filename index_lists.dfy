/** The mutable list of free board indexes that the duet generator draws from,
    with the list operations it relies on (Python's `list.remove`) and the
    functions that specify what a series of removals leaves behind. */
module IndexLists {

  /** No value occurs twice in `s`. */
  predicate Distinct(s: seq<int>) {
    forall i, j :: 0 <= i < j < |s| ==> s[i] != s[j]
  }

  /** The values that occur in `s`. */
  function Elements(s: seq<int>): set<int> {
    set x | x in s
  }

  /** The list `[0, 1, ..., n - 1]`, Python's `[i for i in range(n)]`. */
  function Indexes(n: nat): (r: seq<int>)
    ensures |r| == n && forall i | 0 <= i < n :: r[i] == i
    ensures Distinct(r)
    ensures forall x :: x in r <==> 0 <= x < n
  {
    if n == 0 then [] else Indexes(n - 1) + [n - 1]
  }

  /** A list without repetitions has as many values as elements. */
  lemma {:induction false} DistinctSize(s: seq<int>)
    requires Distinct(s)
    ensures |Elements(s)| == |s|
    decreases |s|
  {
    if s != [] {
      assert Distinct(s[1..]);
      DistinctSize(s[1..]);
      assert s == [s[0]] + s[1..];
      assert s[0] !in s[1..];
      assert Elements(s) == Elements(s[1..]) + {s[0]};
    }
  }

  /** Every element of `ps` is a position of `s`. */
  predicate PositionsOf(s: seq<int>, ps: set<int>) {
    forall p | p in ps :: 0 <= p < |s|
  }

  /** A list has at most as many distinct values as elements. */
  lemma {:induction false} ElementsSize(s: seq<int>)
    ensures |Elements(s)| <= |s|
    decreases |s|
  {
    if s != [] {
      ElementsSize(s[1..]);
      assert s == [s[0]] + s[1..];
      assert Elements(s) == Elements(s[1..]) + {s[0]};
    }
  }

  /** The values at the positions `ps` of `s`, in list order: what
      `random.sample(s, |ps|)` returns when it picks the positions `ps`,
      up to the order of the picks. */
  function Sample(s: seq<int>, ps: set<int>): seq<int>
    decreases |s|
  {
    if s == [] then []
    else
      var last := |s| - 1;
      Sample(s[..last], ps) + (if last in ps then [s[last]] else [])
  }

  /** Positions at or beyond the end of the list play no part in a sample. */
  lemma {:induction false} SampleIgnoresBeyond(s: seq<int>, ps: set<int>, k: int)
    requires k >= |s|
    ensures Sample(s, ps - {k}) == Sample(s, ps)
    decreases |s|
  {
    if s != [] {
      SampleIgnoresBeyond(s[..|s| - 1], ps, k);
    }
  }

  /** A sample holds one value per picked position, taken from the list, and
      repeats no value when the list repeats none. */
  lemma {:induction false} SampleContents(s: seq<int>, ps: set<int>)
    requires PositionsOf(s, ps)
    ensures |Sample(s, ps)| == |ps|
    ensures Elements(Sample(s, ps)) <= Elements(s)
    ensures Distinct(s) ==> Distinct(Sample(s, ps))
    decreases |s|
  {
    if s == [] {
      var none: set<int> := {};
      assert forall p :: p in ps <==> p in none;
    } else {
      var last := |s| - 1;
      var init := s[..last];
      var rest := ps - {last};
      SampleContents(init, rest);
      SampleIgnoresBeyond(init, ps, last);
      var head := Sample(init, ps);
      var tail := if last in ps then [s[last]] else [];
      assert Sample(s, ps) == head + tail;
      assert s == init + [s[last]];
      assert Elements(head + tail) == Elements(head) + Elements(tail);
      if Distinct(s) && last in ps {
        assert Distinct(init);
        assert s[last] !in init;
        assert s[last] !in Elements(head);
        var w := head + tail;
        forall i, j | 0 <= i < j < |w| ensures w[i] != w[j] {
          if j == |w| - 1 {
            assert w[i] == head[i];
            assert w[i] in Elements(head);
          } else {
            assert w[i] == head[i] && w[j] == head[j];
          }
        }
      }
    }
  }

  /** `set(random.sample(s, k))` with the picks at the positions `ps`: at most
      |ps| values, all of them from `s`, and exactly |ps| values when `s` repeats
      none. */
  lemma SampledValues(s: seq<int>, ps: set<int>)
    requires PositionsOf(s, ps)
    ensures Elements(Sample(s, ps)) <= Elements(s)
    ensures |Elements(Sample(s, ps))| <= |ps|
    ensures Distinct(s) ==> |Elements(Sample(s, ps))| == |ps|
  {
    SampleContents(s, ps);
    ElementsSize(Sample(s, ps));
    if Distinct(s) {
      DistinctSize(Sample(s, ps));
    }
  }

  /** `s` with the first occurrence of `v` taken out, as Python's
      `list.remove` does (which fails when `v` does not occur). */
  function RemoveFirst(s: seq<int>, v: int): (r: seq<int>)
    requires v in s
    ensures |r| == |s| - 1
    ensures multiset(r) == multiset(s) - multiset{v}
  {
    assert s == [s[0]] + s[1..];
    if s[0] == v then s[1..] else [s[0]] + RemoveFirst(s[1..], v)
  }

  /** `s` after the first occurrence of each value of `xs` has been removed,
      in any order; values of `xs` that do not occur in `s` are ignored. */
  function RemoveEach(s: seq<int>, xs: set<int>): seq<int>
    decreases |s|
  {
    if s == [] then []
    else if s[0] in xs then RemoveEach(s[1..], xs - {s[0]})
    else [s[0]] + RemoveEach(s[1..], xs)
  }

  /** Removing no values leaves the list as it was. */
  lemma {:induction false} RemoveEachNothing(s: seq<int>)
    ensures RemoveEach(s, {}) == s
    decreases |s|
  {
    if s != [] {
      RemoveEachNothing(s[1..]);
    }
  }

  /** The elements of `s` that are not in `xs`, in their order in `s`. */
  function Without(s: seq<int>, xs: set<int>): seq<int>
    decreases |s|
  {
    if s == [] then []
    else (if s[0] in xs then [] else [s[0]]) + Without(s[1..], xs)
  }

  /** One more `list.remove` of a value not removed yet extends the set of
      removed values by that value; the value is still there to be removed. */
  lemma {:induction false} RemoveEachStep(s: seq<int>, done: set<int>, v: int)
    requires v in s && v !in done
    ensures v in RemoveEach(s, done)
    ensures RemoveFirst(RemoveEach(s, done), v) == RemoveEach(s, done + {v})
    decreases |s|
  {
    assert s == [s[0]] + s[1..];
    if s[0] in done {
      assert v in s[1..];
      RemoveEachStep(s[1..], done - {s[0]}, v);
      assert done + {v} - {s[0]} == done - {s[0]} + {v};
    } else if s[0] == v {
      assert done + {v} - {v} == done;
    } else {
      assert v in s[1..];
      RemoveEachStep(s[1..], done, v);
    }
  }

  /** Removing the values of `xs`, all present in `s`, shortens `s` by |xs|,
      even when `s` has repeated values. */
  lemma {:induction false} RemoveEachSize(s: seq<int>, xs: set<int>)
    requires xs <= Elements(s)
    ensures |RemoveEach(s, xs)| == |s| - |xs|
    decreases |s|
  {
    if s != [] {
      assert s == [s[0]] + s[1..];
      if s[0] in xs {
        assert xs - {s[0]} <= Elements(s[1..]);
        RemoveEachSize(s[1..], xs - {s[0]});
      } else {
        assert xs <= Elements(s[1..]);
        RemoveEachSize(s[1..], xs);
      }
    } else {
      assert xs == {};
    }
  }

  /** Filtering out a value that does not occur changes nothing. */
  lemma {:induction false} WithoutAbsent(s: seq<int>, xs: set<int>, v: int)
    requires v !in s
    ensures Without(s, xs - {v}) == Without(s, xs)
    decreases |s|
  {
    if s != [] {
      assert v !in s[1..];
      WithoutAbsent(s[1..], xs, v);
    }
  }

  /** In a list without repeated values, removing the first occurrence of each
      value of `xs` is the same as filtering those values out: the remaining
      elements keep their relative order. */
  lemma {:induction false} RemoveEachOfDistinct(s: seq<int>, xs: set<int>)
    requires Distinct(s)
    ensures RemoveEach(s, xs) == Without(s, xs)
    decreases |s|
  {
    if s != [] {
      assert Distinct(s[1..]);
      if s[0] in xs {
        RemoveEachOfDistinct(s[1..], xs - {s[0]});
        assert s[0] !in s[1..];
        WithoutAbsent(s[1..], xs, s[0]);
      } else {
        RemoveEachOfDistinct(s[1..], xs);
      }
    }
  }

  /** Filtering keeps a list free of repetitions and leaves exactly the values
      not filtered out. */
  lemma {:induction false} WithoutContents(s: seq<int>, xs: set<int>)
    ensures Elements(Without(s, xs)) == Elements(s) - xs
    ensures Distinct(s) ==> Distinct(Without(s, xs))
    decreases |s|
  {
    if s != [] {
      var tail := Without(s[1..], xs);
      WithoutContents(s[1..], xs);
      assert s == [s[0]] + s[1..];
      assert Elements(s) == {s[0]} + Elements(s[1..]);
      var head := if s[0] in xs then [] else [s[0]];
      assert Without(s, xs) == head + tail;
      assert Elements(head + tail) == Elements(head) + Elements(tail);
      if Distinct(s) {
        assert Distinct(s[1..]);
        assert s[0] !in s[1..];
        assert s[0] !in Elements(tail);
        var w := Without(s, xs);
        if s[0] !in xs {
          assert w == [s[0]] + tail;
          forall i, j | 0 <= i < j < |w| ensures w[i] != w[j] {
            if i == 0 {
              assert w[j] == tail[j - 1];
              assert w[j] in tail;
            } else {
              assert w[i] == tail[i - 1] && w[j] == tail[j - 1];
            }
          }
        } else {
          assert w == tail;
        }
      }
    }
  }

  /** A Python list of indexes, changed in place by its owner. */
  class IndexList {
    var items: seq<int>

    constructor (items: seq<int>)
      ensures this.items == items
    {
      this.items := items;
    }

    /** Python's `list.remove`: takes out the first occurrence of `v`. */
    method Remove(v: int)
      requires v in items
      modifies this
      ensures items == RemoveFirst(old(items), v)
      ensures |items| == |old(items)| - 1
    {
      items := RemoveFirst(items, v);
    }
  }
}
