/**
 * What the two `useBatchAnnotation` composables (web/ and frontend/) share:
 * the initial filter options, the test for filter conditions, and the
 * selection list that `toggleSelection` and `selectAll` rewrite.
 */
module BatchSelection {
  import opened Wrappers
  import opened Strs
  import opened JsArrays
  import opened Store
  import opened BatchRequests

  /** The filter options a new composable starts from and `resetState` restores. */
  const InitialOptions: FilterOptions :=
    FilterOptions(Some([]), Some([]), Some([]), Some([]), Some(false), Some(1), Some(50))

  /** `xs?.length` is truthy. */
  predicate Listed(xs: Option<seq<string>>)
  {
    xs.Some? && xs.value != []
  }

  /** `hasFilterConditions`: some keyword or label list is non-empty, or only unlabelled texts are wanted. */
  predicate HasConditions(o: FilterOptions)
  {
    Listed(o.includeKeywords) || Listed(o.excludeKeywords) || Listed(o.includeLabels) || Listed(o.excludeLabels)
    || o.unlabeledOnly == Some(true)
  }

  /** The initial options hold no condition, so filtering right after a reset does nothing. */
  lemma InitialHasNoConditions()
    ensures !HasConditions(InitialOptions)
  {
  }

  /** `texts.map(text => text.id)`. */
  function Ids(texts: seq<TextRow>): (r: seq<int>)
    ensures |r| == |texts|
    ensures forall k :: 0 <= k < |texts| ==> r[k] == texts[k].id
  {
    Map(texts, (t: TextRow) => t.id)
  }

  /** After `selectAll`, an id is selected exactly when some shown text carries it. */
  lemma SelectAllMembers(texts: seq<TextRow>, id: int)
    ensures id in Ids(texts) <==> exists k :: 0 <= k < |texts| && texts[k].id == id
  {
    if id in Ids(texts) {
      var k :| 0 <= k < |texts| && Ids(texts)[k] == id;
    }
  }

  /** The list without the first occurrence of `x`. */
  function RemoveFirst(xs: seq<int>, x: int): (r: seq<int>)
    ensures x in xs ==> multiset(r) == multiset(xs) - multiset{x}
    ensures x !in xs ==> r == xs
  {
    if xs == [] then []
    else
      assert xs == [xs[0]] + xs[1..];
      if xs[0] == x then xs[1..] else [xs[0]] + RemoveFirst(xs[1..], x)
  }

  /** Removing the first occurrence is splicing out the position `indexOf` reports. */
  lemma {:induction false} RemoveFirstAt(xs: seq<int>, x: int, i: nat)
    requires i < |xs| && xs[i] == x && x !in xs[..i]
    ensures RemoveFirst(xs, x) == SpliceOne(xs, i)
  {
    if i > 0 {
      var t := xs[1..];
      assert xs[0] in xs[..i];
      assert x !in t[..i - 1] by {
        assert t[..i - 1] == xs[..i][1..];
      }
      calc {
        RemoveFirst(xs, x);
        [xs[0]] + RemoveFirst(t, x);
        { RemoveFirstAt(t, x, i - 1); }
        [xs[0]] + (t[..i - 1] + t[i..]);
        { assert xs[..i] == [xs[0]] + t[..i - 1]; assert xs[i + 1..] == t[i..]; }
        SpliceOne(xs, i);
      }
    } else {
      assert xs[..0] == [];
    }
  }

  /** The selection after `toggleSelection(id)`: the id's first occurrence removed, or the id appended. */
  function Toggled(xs: seq<int>, id: int): (r: seq<int>)
    ensures id in xs ==> multiset(r) == multiset(xs) - multiset{id}
    ensures id !in xs ==> multiset(r) == multiset(xs) + multiset{id}
  {
    if id in xs then RemoveFirst(xs, id) else xs + [id]
  }

  /** Repeat-free lists correspond to multisets with no element counted twice. */
  lemma {:induction false} NoDupCounts(xs: seq<int>)
    ensures NoDup(xs) <==> forall y :: multiset(xs)[y] <= 1
  {
    if xs != [] {
      var t := xs[1..];
      assert xs == [xs[0]] + t;
      NoDupCounts(t);
      if NoDup(xs) {
        assert NoDup(t) by {
          forall i, j | 0 <= i < j < |t| ensures t[i] != t[j] {
            assert t[i] == xs[i + 1] && t[j] == xs[j + 1];
          }
        }
      }
      if forall y :: multiset(xs)[y] <= 1 {
        forall y ensures multiset(t)[y] <= 1 {
          assert multiset(xs)[y] <= 1;
        }
        assert xs[0] !in t by {
          assert multiset(xs)[xs[0]] == multiset(t)[xs[0]] + 1;
        }
        forall i, j | 0 <= i < j < |xs| ensures xs[i] != xs[j] {
          if i == 0 {
            assert xs[j] == t[j - 1];
          } else {
            assert xs[i] == t[i - 1] && xs[j] == t[j - 1];
          }
        }
      }
    }
  }

  /**
   * On a repeat-free selection, a toggle keeps it repeat-free, flips whether the
   * id is selected and leaves every other id as it was.
   */
  lemma ToggledMembers(xs: seq<int>, id: int)
    requires NoDup(xs)
    ensures NoDup(Toggled(xs, id))
    ensures id in Toggled(xs, id) <==> id !in xs
    ensures forall y :: y != id ==> (y in Toggled(xs, id) <==> y in xs)
  {
    var r := Toggled(xs, id);
    NoDupCounts(xs);
    forall y ensures multiset(r)[y] <= 1 {
      if y == id && id !in xs {
        assert multiset(xs)[y] == 0;
      }
    }
    NoDupCounts(r);
    assert multiset(r)[id] == (if id in xs then multiset(xs)[id] - 1 else 1);
    forall y | y != id ensures y in r <==> y in xs {
      assert multiset(r)[y] == multiset(xs)[y];
    }
  }

  /**
   * Toggling twice restores which ids are selected, and an id that was not
   * selected leaves the list exactly as it was.
   */
  lemma ToggleTwice(xs: seq<int>, id: int)
    requires NoDup(xs)
    ensures forall y :: y in Toggled(Toggled(xs, id), id) <==> y in xs
    ensures id !in xs ==> Toggled(Toggled(xs, id), id) == xs
  {
    ToggledMembers(xs, id);
    ToggledMembers(Toggled(xs, id), id);
    if id !in xs {
      var ys := xs + [id];
      RemoveFirstAt(ys, id, |xs|);
      assert ys[..|xs|] == xs;
    }
  }
}
