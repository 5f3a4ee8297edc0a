/**
 * Bulk deletion by grid position: the toggled set of item indices, the
 * descending order in which they are removed, and the list that results.
 */
module Selection {
  import opened Figures

  /** Tapping item `i`: remove it from the selection if present, insert it otherwise. */
  function Toggle(selected: set<nat>, i: nat): (r: set<nat>)
    ensures i in r <==> i !in selected
    ensures forall j :: j != i ==> (j in r <==> j in selected)
  {
    if i in selected then selected - {i} else selected + {i}
  }

  /** Tapping the same item twice restores the selection. */
  lemma ToggleTwice(selected: set<nat>, i: nat)
    ensures Toggle(Toggle(selected, i), i) == selected
  {
  }

  lemma MaxExists(s: set<nat>)
    requires s != {}
    ensures exists m :: m in s && forall x :: x in s ==> x <= m
    decreases s
  {
    var y :| y in s;
    if s != {y} {
      MaxExists(s - {y});
      var m :| m in s - {y} && forall x :: x in s - {y} ==> x <= m;
      var top := if y > m then y else m;
      forall x | x in s ensures x <= top {
        if x != y {
          assert x in s - {y};
        }
      }
    } else {
      assert forall x :: x in s ==> x <= y;
    }
  }

  /** The largest selected index. */
  function MaxOf(s: set<nat>): (m: nat)
    requires s != {}
    ensures m in s
    ensures forall x :: x in s ==> x <= m
  {
    MaxExists(s);
    var m :| m in s && forall x :: x in s ==> x <= m;
    m
  }

  /** `selectedIndexes.sorted { $0.item > $1.item }`. */
  function SortedDescending(s: set<nat>): (r: seq<nat>)
    ensures |r| == |s|
    ensures forall x :: x in r <==> x in s
    ensures forall i, j :: 0 <= i < j < |r| ==> r[i] > r[j]
    decreases |s|
  {
    if s == {} then []
    else
      var m := MaxOf(s);
      [m] + SortedDescending(s - {m})
  }

  /** The positions listed in `indexes`. */
  function Elements(indexes: seq<nat>): set<nat>
  {
    set x | x in indexes
  }

  /** The positions already removed when the loop reaches `indexes[k]` all lie above it. */
  lemma EarlierAreLarger(indexes: seq<nat>, k: nat)
    requires k < |indexes|
    requires forall i, j :: 0 <= i < j < |indexes| ==> indexes[i] > indexes[j]
    ensures forall d :: d in indexes[..k] ==> d > indexes[k]
  {
    forall d | d in indexes[..k]
      ensures d > indexes[k]
    {
      var i :| 0 <= i < k && indexes[i] == d;
    }
  }

  /** `Array.remove(at:)`. */
  function RemoveAt(figs: seq<Figure>, i: nat): (r: seq<Figure>)
    requires i < |figs|
    ensures |r| == |figs| - 1
    ensures forall j :: 0 <= j < i ==> r[j] == figs[j]
    ensures forall j :: i <= j < |r| ==> r[j] == figs[j + 1]
  {
    figs[..i] + figs[i + 1..]
  }

  /** `figs` with the figures at the positions in `positions` filtered out. */
  function Without(figs: seq<Figure>, positions: set<nat>): (r: seq<Figure>)
    ensures |r| <= |figs|
    ensures forall x :: x in r ==> x in figs
    decreases |figs|
  {
    if figs == [] then []
    else
      var last := |figs| - 1;
      Without(figs[..last], positions) + (if last in positions then [] else [figs[last]])
  }

  /** Only positions inside the list matter. */
  lemma {:induction false} WithoutDependsOnlyOnInRange(figs: seq<Figure>, p: set<nat>, q: set<nat>)
    requires forall i :: 0 <= i < |figs| ==> (i in p <==> i in q)
    ensures Without(figs, p) == Without(figs, q)
    decreases |figs|
  {
    if figs != [] {
      WithoutDependsOnlyOnInRange(figs[..|figs| - 1], p, q);
    }
  }

  /** Removing nothing leaves the list as it was. */
  lemma {:induction false} WithoutNothing(figs: seq<Figure>, p: set<nat>)
    requires forall i :: i in p ==> i >= |figs|
    ensures Without(figs, p) == figs
    decreases |figs|
  {
    if figs != [] {
      var last := |figs| - 1;
      WithoutNothing(figs[..last], p);
      assert figs[..last] + [figs[last]] == figs;
    }
  }

  /**
   * The step the descending order makes safe: when every position already
   * removed lies above `m`, position `m` of the shrunk list still holds the
   * original figure `figs[m]`, and removing it there removes position `m`
   * of the original.
   */
  lemma {:induction false} RemoveBelowRemoved(figs: seq<Figure>, done: set<nat>, m: nat)
    requires m < |figs|
    requires forall d :: d in done ==> d > m
    ensures m < |Without(figs, done)|
    ensures Without(figs, done)[m] == figs[m]
    ensures Without(figs, done + {m}) == RemoveAt(Without(figs, done), m)
    decreases |figs|
  {
    var last := |figs| - 1;
    var init := figs[..last];
    if last == m {
      WithoutNothing(init, done);
      WithoutNothing(init, done + {m});
      assert Without(figs, done) == init + [figs[m]];
      assert Without(figs, done + {m}) == init;
    } else {
      RemoveBelowRemoved(init, done, m);
      var w := Without(init, done);
      var tail := if last in done then [] else [figs[last]];
      assert Without(figs, done) == w + tail;
      assert Without(figs, done + {m}) == RemoveAt(w, m) + tail;
      assert (w + tail)[m] == w[m];
      assert RemoveAt(w + tail, m) == RemoveAt(w, m) + tail;
    }
  }

  /** `remove(at: i)` is the deletion of the one position `i`. */
  lemma RemoveAtIsWithoutSingle(figs: seq<Figure>, i: nat)
    requires i < |figs|
    ensures Without(figs, {i}) == RemoveAt(figs, i)
  {
    RemoveBelowRemoved(figs, {}, i);
    WithoutNothing(figs, {});
    assert {} + {i} == {i};
  }

  /** Deleting n distinct in-range positions shortens the list by exactly n. */
  lemma {:induction false} WithoutLength(figs: seq<Figure>, positions: set<nat>)
    requires forall i :: i in positions ==> i < |figs|
    ensures |Without(figs, positions)| == |figs| - |positions|
    decreases |figs|
  {
    if figs == [] {
      assert positions == {};
    } else {
      var last := |figs| - 1;
      var init := figs[..last];
      if last in positions {
        var rest := positions - {last};
        WithoutDependsOnlyOnInRange(init, positions, rest);
        WithoutLength(init, rest);
      } else {
        WithoutLength(init, positions);
      }
    }
  }

  /** Deleting positions never introduces a repeated identifier. */
  lemma {:induction false} WithoutKeepsUniqueIds(figs: seq<Figure>, positions: set<nat>)
    requires UniqueIds(figs)
    ensures UniqueIds(Without(figs, positions))
    decreases |figs|
  {
    if figs != [] {
      var last := |figs| - 1;
      var init := figs[..last];
      assert UniqueIds(init) by {
        forall i, j | 0 <= i < j < |init| ensures init[i].id != init[j].id {
          assert init[i] == figs[i] && init[j] == figs[j];
        }
      }
      WithoutKeepsUniqueIds(init, positions);
      if last !in positions {
        var w := Without(init, positions);
        assert !HasId(w, figs[last].id) by {
          forall k | 0 <= k < |w| ensures w[k].id != figs[last].id {
            assert w[k] in init;
            var i :| 0 <= i < |init| && init[i] == w[k];
            assert init[i] == figs[i];
          }
        }
        AppendFreshKeepsUnique(w, figs[last]);
      }
    }
  }

  /** Adding a figure and then deleting its position gives back the list. */
  lemma AppendThenDeleteRestores(figs: seq<Figure>, f: Figure)
    ensures Without(figs + [f], {|figs|}) == figs
  {
    RemoveAtIsWithoutSingle(figs + [f], |figs|);
    assert (figs + [f])[..|figs|] == figs;
  }
}
