/** The JavaScript `Set` as the source uses it: a collection without repeats
    whose iteration order (`[...set]`) is the order of first insertion. A set's
    contents are represented by that iteration order. */
module InsertionSet {

  predicate NoDup<T(==)>(s: seq<T>) {
    forall i, j | 0 <= i < j < |s| :: s[i] != s[j]
  }

  /** `set.add(x)`: appends `x` unless it is already there. */
  function SetAdd<T(==)>(s: seq<T>, x: T): seq<T> {
    if x in s then s else s + [x]
  }

  lemma InsertAllSnoc<T>(acc: seq<T>, xs: seq<T>, x: T)
    ensures InsertAll(acc, xs + [x]) == SetAdd(InsertAll(acc, xs), x)
  {
    assert (xs + [x])[..|xs|] == xs;
  }

  /** Adding keeps a collection free of repeats, and adding an element already there changes nothing. */
  lemma SetAddNoDup<T>(s: seq<T>, x: T)
    requires NoDup(s)
    ensures NoDup(SetAdd(s, x)) && x in SetAdd(s, x)
    ensures SetAdd(SetAdd(s, x), x) == SetAdd(s, x)
  {
  }

  /** Adding every element of `xs` in order (also `new Set(xs)` from the empty set). */
  function InsertAll<T(==)>(acc: seq<T>, xs: seq<T>): seq<T>
    decreases |xs|
  {
    if xs == [] then acc else SetAdd(InsertAll(acc, xs[..|xs| - 1]), xs[|xs| - 1])
  }

  /** The result holds exactly the old and the added elements, keeps the old
      ones in front, and has no repeats when the start had none. */
  lemma {:induction false} InsertAllMembers<T(!new)>(acc: seq<T>, xs: seq<T>)
    ensures forall x :: x in InsertAll(acc, xs) <==> x in acc || x in xs
    ensures NoDup(acc) ==> NoDup(InsertAll(acc, xs))
    ensures acc <= InsertAll(acc, xs)
    decreases |xs|
  {
    if xs != [] {
      var n := |xs| - 1;
      InsertAllMembers(acc, xs[..n]);
      assert xs == xs[..n] + [xs[n]];
    }
  }

  /** Adding two batches one after the other is adding their concatenation. */
  lemma {:induction false} InsertAllAppend<T(!new)>(acc: seq<T>, xs: seq<T>, ys: seq<T>)
    ensures InsertAll(InsertAll(acc, xs), ys) == InsertAll(acc, xs + ys)
    decreases |ys|
  {
    if ys == [] {
      assert xs + ys == xs;
    } else {
      var n := |ys| - 1;
      InsertAllAppend(acc, xs, ys[..n]);
      assert (xs + ys)[..|xs + ys| - 1] == xs + ys[..n];
    }
  }

  /** Adding elements that are all new appends them unchanged. */
  lemma {:induction false} InsertAllFresh<T(!new)>(acc: seq<T>, xs: seq<T>)
    requires NoDup(acc + xs)
    ensures InsertAll(acc, xs) == acc + xs
    decreases |xs|
  {
    if xs != [] {
      var n := |xs| - 1;
      assert acc + xs == (acc + xs[..n]) + [xs[n]];
      assert NoDup(acc + xs[..n]) by {
        forall i, j | 0 <= i < j < |acc + xs[..n]| ensures (acc + xs[..n])[i] != (acc + xs[..n])[j] {
          assert (acc + xs[..n])[i] == (acc + xs)[i] && (acc + xs[..n])[j] == (acc + xs)[j];
        }
      }
      InsertAllFresh(acc, xs[..n]);
      assert xs[n] !in acc + xs[..n] by {
        forall i | 0 <= i < |acc + xs[..n]| ensures (acc + xs[..n])[i] != xs[n] {
          assert (acc + xs)[i] == (acc + xs[..n])[i] && (acc + xs)[|acc| + n] == xs[n];
        }
      }
    }
  }

  /** Re-reading a stored set into a fresh Set and adding an element already
      added gives back the stored set. */
  lemma ReinsertIdempotent<T(!new)>(d: seq<T>, x: T)
    ensures var s := SetAdd(InsertAll([], d), x);
      SetAdd(InsertAll([], s), x) == s
  {
    InsertAllMembers([], d);
    SetAddNoDup(InsertAll([], d), x);
    var s := SetAdd(InsertAll([], d), x);
    assert [] + s == s;
    InsertAllFresh([], s);
  }

  /** The position of the first occurrence of `x` in `s`. */
  function FirstIndex<T(==)>(s: seq<T>, x: T): (k: nat)
    requires x in s
    ensures k < |s| && s[k] == x
    ensures forall j | 0 <= j < k :: s[j] != x
  {
    if s[0] == x then 0 else 1 + FirstIndex(s[1..], x)
  }

  lemma FirstIndexSnoc<T>(s: seq<T>, y: T, x: T)
    requires x in s
    ensures FirstIndex(s + [y], x) == FirstIndex(s, x)
  {
    var k := FirstIndex(s, x);
    var k' := FirstIndex(s + [y], x);
    assert (s + [y])[k] == x;
    assert s[k'] == x by { if k' == |s| { assert false; } }
  }

  /** `[...new Set(xs)]` lists the distinct elements in the order of their first occurrence. */
  lemma {:induction false} InsertAllOrder<T(!new)>(xs: seq<T>)
    ensures forall i, j | 0 <= i < j < |InsertAll([], xs)| ::
      InsertAll([], xs)[i] in xs && InsertAll([], xs)[j] in xs &&
      FirstIndex(xs, InsertAll([], xs)[i]) < FirstIndex(xs, InsertAll([], xs)[j])
    decreases |xs|
  {
    InsertAllMembers([], xs);
    if xs != [] {
      var n := |xs| - 1;
      var p, x := xs[..n], xs[n];
      assert xs == p + [x];
      InsertAllOrder(p);
      var r := InsertAll([], p);
      InsertAllMembers([], p);
      forall y | y in p ensures FirstIndex(xs, y) == FirstIndex(p, y) {
        FirstIndexSnoc(p, x, y);
      }
      if x !in r {
        assert FirstIndex(xs, x) == n;
      }
    }
  }

  /** A sequence without repeats has as many elements as the set of its elements. */
  lemma {:induction false} NoDupCardinality<T>(s: seq<T>)
    requires NoDup(s)
    ensures |set x | x in s| == |s|
    decreases |s|
  {
    if s != [] {
      var n := |s| - 1;
      assert NoDup(s[..n]) by {
        forall i, j | 0 <= i < j < n ensures s[..n][i] != s[..n][j] {
          assert s[i] != s[j];
        }
      }
      NoDupCardinality(s[..n]);
      assert s[n] !in s[..n];
      assert (set x | x in s) == (set x | x in s[..n]) + {s[n]} by {
        assert s == s[..n] + [s[n]];
      }
    }
  }
}
